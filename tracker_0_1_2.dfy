/** Version 0.1.2 of the Star Trek Adventures pool tracker: commands
    `!momentum`/`!m` and `!threat`/`!t`, actions `show`, `empty`, `add`,
    `sub` and `set`, a whisper on a bare command, and a handout that is
    rewritten after every change made through chat. */
module Tracker012 {
  import opened Text
  import opened Pools
  import opened JsNumber

  // ---------------------------------------------------------------------
  // Constants
  // ---------------------------------------------------------------------

  /** The inline CSS of `STYLES`. Only where each one is spliced into
      the markup matters here, so their texts are left unspecified. */
  const StyleBase: string
  const StyleBody: string
  const StyleQuantity: string
  const StyleQuantMomentum: string
  const StyleQuantThreat: string
  const StyleInlineQuantMomentum: string
  const StyleInlineQuantThreat: string
  const StyleHeader: string
  const StyleSectionHead: string
  const StyleHeadSpan: string

  /** `CMD`, in declaration order: the order `_.find` tries the prefixes. */
  const Commands: seq<string> := ["!momentum", "!m", "!threat", "!t"]

  const ActionAdd := "add"
  const ActionSub := "sub"
  const ActionSet := "set"
  const ActionShow := "show"
  const ActionEmpty := "empty"

  /** Posted once, when `init` first obtains the handout. */
  const HandoutNotice := "\"Momentum and Threat Pools\" handout is available!  Check it to keep an eye on Momentum and Threat!"

  /** The pool a matched command prefix selects in `_handleCmd`'s switch. */
  function CommandPool(command: string): Option<Pool> {
    if command == "!momentum" || command == "!m" then Some(Momentum)
    else if command == "!threat" || command == "!t" then Some(Threat)
    else None
  }

  /** The pool a message's text selects, if it is a command at all. */
  function Recognize(content: string): Option<Pool> {
    match FindPrefix(Commands, content)
    case None => None
    case Some(command) => CommandPool(command)
  }

  /** The pool that a first word starting with `!m` or `!t` selects. */
  function TargetOf(word: string): Pool {
    if "!m" <= word then Momentum else Threat
  }

  // ---------------------------------------------------------------------
  // Rendering
  // ---------------------------------------------------------------------

  /** `_buildPoolHtml` as three fixed pieces of markup around the two
      pool texts: the opening `div`s up to the momentum `span`, the markup
      between the two `span`s, and the rest up to the closing `div`s. */
  const HtmlOpen := "<div style=\"" + StyleBase + "\">" + "<div style=\"" + StyleBody + "\">" +
    "<div style=\"" + StyleQuantity + "\">" + "<span style=\"" + StyleQuantMomentum + "\">"
  const HtmlMid := "</span>" + "<span style=\"" + StyleQuantThreat + "\">"
  const HtmlClose := "</span>" + "</div>" + "<div style=\"" + StyleHeader + "\">" +
    "<div style=\"" + StyleSectionHead + "\"><span style=\"" + StyleHeadSpan + "\">Momentum / Threat</span></div>" +
    "</div>" + "</div>" + "</div>"

  /** `_buildPoolHtml`: the view shown in chat and in the handout. Its
      `'??'` branch is for a field `_.isNumber` rejects, which the record
      cannot hold, so every pool is printed by `toString(10)`. */
  function BuildPoolHtml(s: PoolState): string {
    HtmlOpen + ValueText(s.momentum) + HtmlMid + ValueText(s.threat) + HtmlClose
  }

  /** `_formatPoolName`. */
  function FormatPoolName(p: Pool): string {
    match p
    case Momentum => "<span style=\"" + StyleInlineQuantMomentum + "\">Momentum</span>"
    case Threat => "<span style=\"" + StyleInlineQuantThreat + "\">Threat</span>"
  }

  /** The text `_chatActionTaken` posts for an action: empty for an action it does not know. */
  function ActionText(name: string, action: string, pool: Option<Pool>, arg1: Option<string>): string {
    var poolString := if pool.Some? then FormatPoolName(pool.value) else "";
    var shown := if arg1.Some? then arg1.value else "null";
    if action == ActionShow then "Showing pools."
    else if action == ActionAdd then name + " adds <b>" + shown + "</b> to " + poolString
    else if action == ActionSub then name + " removes <b>" + shown + "</b> from " + poolString
    else if action == ActionSet then name + " sets " + poolString + " to <b>" + shown + "</b>"
    else if action == ActionEmpty then name + " empties/resets the threat and momentum pools."
    else ""
  }

  /** `_chatPools(target)`: a whisper to the target, or a public post without one. */
  function PoolsChat(target: Option<Player>, s: PoolState): Event {
    match target
    case None => Broadcast(BuildPoolHtml(s))
    case Some(pl) => Whisper(pl.name, BuildPoolHtml(s))
  }

  /** What `emptyPools` posts and writes to the handout. */
  const EmptyEvents: seq<Event> := [Broadcast(BuildPoolHtml(Zeroed)), HandoutSet(BuildPoolHtml(Zeroed))]

  // ---------------------------------------------------------------------
  // The pool mutator
  // ---------------------------------------------------------------------

  /** The operand of `add`/`sub`/`set`: `isNaN(arg1) ? Infinity : parseInt(arg1)`
      followed by the check that the result is a finite number. A token
      `isNaN` rejects becomes Infinity, and one `parseInt` cannot read
      becomes NaN; both are `None`, which is rejected. */
  function OperandValue(token: string): Option<int> {
    if IsNumeric(token) then ParseInt(token) else None
  }

  function MissingText(action: string, p: Pool): string {
    if action == ActionSet then "Missing value to set " + PoolName(p) + " to."
    else "Missing value to add/subtract from " + PoolName(p)
  }

  function InvalidText(action: string, p: Pool): string {
    if action == ActionSet then "Invalid value for " + PoolName(p) + " (Not a number!)"
    else "Invalid value (Not a number!)"
  }

  /** What `add`, `sub` and `set` make of the pool's value and the operand. */
  function Apply(action: string, current: int, n: int): int {
    if action == ActionAdd then current + n
    else if action == ActionSub then current - n
    else n
  }

  /** What `_modifyPool` returns (`undefined` and `false` both read as
      failure), the record afterwards, and the errors it reports. */
  datatype Modification = Modification(ok: bool, pools: PoolState, events: seq<Event>)

  /** `_modifyPool(player, poolName, arg0, arg1)`. */
  function ModifyOutcome(s: PoolState, player: Option<Player>, p: Pool, arg0: string, arg1: Option<string>): (m: Modification)
    ensures !m.ok ==> m.pools == s
    ensures Get(m.pools, Other(p)) == Get(s, Other(p))
    ensures m.ok ==> m.events == []
  {
    var current := Get(s, p);
    if current.NaN? then Modification(false, s, [])
    else if arg0 == ActionAdd || arg0 == ActionSub || arg0 == ActionSet then
      if Missing(arg1) then Modification(false, s, [ErrorReport(player, MissingText(arg0, p))])
      else match OperandValue(arg1.value)
        case None => Modification(false, s, [ErrorReport(player, InvalidText(arg0, p))])
        case Some(n) => Modification(true, Put(s, p, Num(Apply(arg0, current.n, n))), [])
    else Modification(true, s, [])
  }

  // ---------------------------------------------------------------------
  // The dispatcher and the message filter
  // ---------------------------------------------------------------------

  /** `_handleCmd(playerid, command, args)`. A missing player makes
      `_chatActionTaken` fail, which ends the handling at that point. */
  function CmdOutcome(s: PoolState, player: Option<Player>, command: string, args: seq<string>): Outcome {
    if |args| == 0 then Outcome(s, [PoolsChat(player, s)])
    else if args[0] == ActionShow then
      if player.None? then Outcome(s, [])
      else Outcome(s, [Announce(player.value, ActionText(player.value.name, args[0], None, None)), PoolsChat(None, s)])
    else if args[0] == ActionEmpty then
      if player.None? then Outcome(s, [])
      else Outcome(Zeroed, [Announce(player.value, ActionText(player.value.name, args[0], None, None))] + EmptyEvents)
    else
      var arg1 := if |args| >= 2 then Some(args[1]) else None;
      match CommandPool(command)
      case None => Outcome(s, [])
      case Some(p) => PoolCaseOutcome(s, player, p, args[0], arg1)
  }

  /** One arm of `_handleCmd`'s switch: modify the pool and, when that
      succeeds, announce the action, post the pools and refresh the handout. */
  function PoolCaseOutcome(s: PoolState, player: Option<Player>, p: Pool, arg0: string, arg1: Option<string>): Outcome {
    var m := ModifyOutcome(s, player, p, arg0, arg1);
    if !m.ok || player.None? then Outcome(m.pools, m.events)
    else
      var html := BuildPoolHtml(m.pools);
      Outcome(m.pools, [Announce(player.value, ActionText(player.value.name, arg0, Some(p), arg1)),
                        Broadcast(html), HandoutSet(html)])
  }

  /** The `chat:message` handler installed by `init`. */
  function MessageOutcome(s: PoolState, msg: Message): Outcome {
    if msg.kind != "api" then Outcome(s, [])
    else match FindPrefix(Commands, msg.content)
      case None => Outcome(s, [])
      case Some(command) => CmdOutcome(s, msg.sender, command, Split(msg.content)[1..])
  }

  // ---------------------------------------------------------------------
  // The tracker as the host runs it
  // ---------------------------------------------------------------------

  /** The record kept in `state[STATE_NAME]`, and every post and handout
      write made so far. */
  class PoolTracker {
    var pools: PoolState
    var log: seq<Event>

    /** `init`: keep a stored record or start from zeros, announce the
        handout and render the pools into it. */
    constructor Init(stored: Option<PoolState>)
      ensures pools == (if stored.Some? then stored.value else Zeroed)
      ensures log == [Broadcast(HandoutNotice), HandoutSet(BuildPoolHtml(pools))]
    {
      pools := if stored.Some? then stored.value else Zeroed;
      log := [Broadcast(HandoutNotice)];
      new;
      SetHandout();
    }

    method SetHandout()
      modifies this
      ensures pools == old(pools)
      ensures log == old(log) + [HandoutSet(BuildPoolHtml(pools))]
    {
      log := log + [HandoutSet(BuildPoolHtml(pools))];
    }

    method OnChatMessage(msg: Message)
      modifies this
      ensures pools == MessageOutcome(old(pools), msg).pools
      ensures log == old(log) + MessageOutcome(old(pools), msg).events
    {
      if msg.kind != "api" {
        return;
      }
      var found := FindPrefix(Commands, msg.content);
      if found.None? {
        return;
      }
      var args := Split(msg.content)[1..];
      HandleCmd(msg.sender, found.value, args);
    }

    method HandleCmd(player: Option<Player>, command: string, args: seq<string>)
      modifies this
      ensures pools == CmdOutcome(old(pools), player, command, args).pools
      ensures log == old(log) + CmdOutcome(old(pools), player, command, args).events
    {
      if |args| == 0 {
        ChatPools(player);
        return;
      }
      var arg0 := args[0];
      if arg0 == ActionShow {
        var announced := ChatActionTaken(player, arg0, None, None);
        if !announced {
          return;
        }
        ChatPools(None);
        return;
      }
      if arg0 == ActionEmpty {
        var announced := ChatActionTaken(player, arg0, None, None);
        if !announced {
          return;
        }
        EmptyPools();
        return;
      }
      var arg1 := if |args| >= 2 then Some(args[1]) else None;
      var target := CommandPool(command);
      if target.Some? {
        PoolCase(player, target.value, arg0, arg1);
      }
    }

    method PoolCase(player: Option<Player>, p: Pool, arg0: string, arg1: Option<string>)
      modifies this
      ensures pools == PoolCaseOutcome(old(pools), player, p, arg0, arg1).pools
      ensures log == old(log) + PoolCaseOutcome(old(pools), player, p, arg0, arg1).events
    {
      var res := ModifyPool(player, p, arg0, arg1);
      if !res {
        return;
      }
      var announced := ChatActionTaken(player, arg0, Some(p), arg1);
      if !announced {
        return;
      }
      ChatPools(None);
      SetHandout();
    }

    method ModifyPool(player: Option<Player>, p: Pool, arg0: string, arg1: Option<string>) returns (ok: bool)
      modifies this
      ensures ok == ModifyOutcome(old(pools), player, p, arg0, arg1).ok
      ensures pools == ModifyOutcome(old(pools), player, p, arg0, arg1).pools
      ensures log == old(log) + ModifyOutcome(old(pools), player, p, arg0, arg1).events
    {
      var current := Get(pools, p);
      if current.NaN? {
        return false;
      }
      if arg0 == ActionAdd || arg0 == ActionSub {
        if Missing(arg1) {
          ReportError(player, MissingText(arg0, p));
          return false;
        }
        var value := OperandValue(arg1.value);
        if value.None? {
          ReportError(player, InvalidText(arg0, p));
          return false;
        }
        if arg0 == ActionAdd {
          pools := Put(pools, p, Num(current.n + value.value));
        } else {
          pools := Put(pools, p, Num(current.n - value.value));
        }
      }
      if arg0 == ActionSet {
        if Missing(arg1) {
          ReportError(player, MissingText(arg0, p));
          return false;
        }
        var value := OperandValue(arg1.value);
        if value.None? {
          ReportError(player, InvalidText(arg0, p));
          return false;
        }
        pools := Put(pools, p, Num(value.value));
      }
      return true;
    }

    /** `_chatActionTaken`; `announced` is false when there is no player
        to speak as, where the source fails. */
    method ChatActionTaken(player: Option<Player>, action: string, pool: Option<Pool>, arg1: Option<string>)
      returns (announced: bool)
      modifies this
      ensures announced == player.Some? && pools == old(pools)
      ensures log == old(log) + if announced then [Announce(player.value, ActionText(player.value.name, action, pool, arg1))] else []
    {
      if player.None? {
        return false;
      }
      log := log + [Announce(player.value, ActionText(player.value.name, action, pool, arg1))];
      return true;
    }

    method ChatPools(target: Option<Player>)
      modifies this
      ensures pools == old(pools)
      ensures log == old(log) + [PoolsChat(target, pools)]
    {
      var html := BuildPoolHtml(pools);
      if target.None? {
        log := log + [Broadcast(html)];
        return;
      }
      log := log + [Whisper(target.value.name, html)];
    }

    method ReportError(player: Option<Player>, text: string)
      modifies this
      ensures pools == old(pools)
      ensures log == old(log) + [ErrorReport(player, text)]
    {
      log := log + [Error(NameOf(player), text)];
    }

    /** `emptyPools`, also exported as `empty`. */
    method EmptyPools()
      modifies this
      ensures pools == Zeroed
      ensures log == old(log) + EmptyEvents
    {
      pools := Zeroed;
      ChatPools(None);
      SetHandout();
    }

    method SetMomentum(val: JsValue)
      modifies this
      ensures pools == SetField(old(pools), Momentum, val) && log == old(log)
    {
      if val.NotNumber? {
        return;
      }
      pools := pools.(momentum := val.v);
    }

    method SetThreat(val: JsValue)
      modifies this
      ensures pools == SetField(old(pools), Threat, val) && log == old(log)
    {
      if val.NotNumber? {
        return;
      }
      pools := pools.(threat := val.v);
    }

    method ModMomentum(val: JsValue)
      modifies this
      ensures pools == ModField(old(pools), Momentum, val) && log == old(log)
    {
      if val.NotNumber? {
        return;
      }
      pools := pools.(momentum := Plus(pools.momentum, val.v));
    }

    method ModThreat(val: JsValue)
      modifies this
      ensures pools == ModField(old(pools), Threat, val) && log == old(log)
    {
      if val.NotNumber? {
        return;
      }
      pools := pools.(threat := Plus(pools.threat, val.v));
    }
  }
}
