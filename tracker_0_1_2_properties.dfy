/** What version 0.1.2 of the tracker guarantees, stated over the
    functions of `Tracker012` that its `PoolTracker` methods are proved
    to follow. */
module Tracker012Properties {
  import opened Text
  import opened Pools
  import opened JsNumber
  import opened Tracker012

  // ---------------------------------------------------------------------
  // Recognizing and tokenizing
  // ---------------------------------------------------------------------

  /** A message is a command exactly when it starts with `!m` or `!t`;
      `!m` selects Momentum (through `!momentum` or `!m`) and `!t` selects
      Threat (through `!threat` or `!t`). */
  lemma RecognizeByPrefix(content: string)
    ensures FindPrefix(Commands, content).Some? <==> "!m" <= content || "!t" <= content
    ensures FindPrefix(Commands, content).Some? ==> CommandPool(FindPrefix(Commands, content).value).Some?
    ensures Recognize(content) == Some(Momentum) <==> "!m" <= content
    ensures Recognize(content) == Some(Threat) <==> "!t" <= content
  {
    assert Commands[1..] == ["!m", "!threat", "!t"] && Commands[2..] == ["!threat", "!t"] && Commands[3..] == ["!t"];
    assert "!momentum" <= content ==> content[..2] == "!m";
    assert "!threat" <= content ==> content[..2] == "!t";
    assert "!m" <= content ==> !("!t" <= content) by {
      if "!m" <= content { assert content[1] == 'm'; }
    }
    if "!momentum" <= content {
      assert FindPrefix(Commands, content) == Some("!momentum");
    } else if "!m" <= content {
      assert FindPrefix(Commands, content) == Some("!m");
    } else {
      assert FindPrefix(Commands, content) == FindPrefix(Commands[1..], content) == FindPrefix(Commands[2..], content);
      if "!threat" <= content {
        assert FindPrefix(Commands[2..], content) == Some("!threat");
      } else {
        assert FindPrefix(Commands[2..], content) == FindPrefix(Commands[3..], content);
      }
    }
  }

  /** A message that is not of type `api`, or that starts with neither
      prefix, changes nothing and produces no output. */
  lemma IgnoredMessage(s: PoolState, msg: Message)
    requires msg.kind != "api" || !("!m" <= msg.content || "!t" <= msg.content)
    ensures MessageOutcome(s, msg) == Outcome(s, [])
  {
    RecognizeByPrefix(msg.content);
  }

  /** The handler passes a recognized command on with its arguments. */
  lemma MessageReachesHandler(s: PoolState, msg: Message)
    requires msg.kind == "api" && FindPrefix(Commands, msg.content).Some?
    ensures MessageOutcome(s, msg) == CmdOutcome(s, msg.sender, FindPrefix(Commands, msg.content).value, Split(msg.content)[1..])
  {
  }

  /** A command typed as space-separated words reaches `_handleCmd` with
      every word after the first, whatever those words are (including
      empty ones), and with the pool its first word selects. */
  lemma HandleWords(s: PoolState, sender: Option<Player>, words: seq<string>)
    requires |words| >= 1 && forall i :: 0 <= i < |words| ==> NoSpace(words[i])
    requires "!m" <= words[0] || "!t" <= words[0]
    ensures FindPrefix(Commands, Join(words)).Some?
    ensures CommandPool(FindPrefix(Commands, Join(words)).value) == Some(TargetOf(words[0]))
    ensures MessageOutcome(s, Message("api", Join(words), sender)) ==
            CmdOutcome(s, sender, FindPrefix(Commands, Join(words)).value, words[1..])
  {
    var content := Join(words);
    if "!m" <= words[0] {
      PrefixOfJoin("!m", words);
    } else {
      PrefixOfJoin("!t", words);
    }
    RecognizeByPrefix(content);
    SplitJoin(words);
    MessageReachesHandler(s, Message("api", content, sender));
  }

  // ---------------------------------------------------------------------
  // The dispatcher, case by case
  // ---------------------------------------------------------------------

  /** With no arguments the pools are whispered to the requester (posted
      publicly when there is none), and nothing changes. */
  lemma BareCommandWhispers(s: PoolState, player: Option<Player>, command: string)
    ensures CmdOutcome(s, player, command, []).pools == s
    ensures player.Some? ==> CmdOutcome(s, player, command, []).events == [Whisper(player.value.name, BuildPoolHtml(s))]
    ensures player.None? ==> CmdOutcome(s, player, command, []).events == [Broadcast(BuildPoolHtml(s))]
  {
  }

  /** `show` announces itself and then posts the pools to everyone. */
  lemma ShowBroadcasts(s: PoolState, pl: Player, command: string, args: seq<string>)
    requires |args| >= 1 && args[0] == "show"
    ensures CmdOutcome(s, Some(pl), command, args) ==
            Outcome(s, [Announce(pl, "Showing pools."), Broadcast(BuildPoolHtml(s))])
  {
  }

  /** `empty` zeroes both pools whichever prefix was used, announces it,
      posts the pools and refreshes the handout. */
  lemma EmptyZeroesBoth(s: PoolState, pl: Player, command: string, args: seq<string>)
    requires |args| >= 1 && args[0] == "empty"
    ensures CmdOutcome(s, Some(pl), command, args) ==
            Outcome(PoolState(Num(0), Num(0)),
                    [Announce(pl, pl.name + " empties/resets the threat and momentum pools."),
                     Broadcast(BuildPoolHtml(Zeroed)), HandoutSet(BuildPoolHtml(Zeroed))])
  {
  }

  /** A valid operand adds to, subtracts from or replaces the selected
      pool and leaves the other one alone; the change is announced, posted
      and written to the handout. Without a requester the announcement
      fails, so the change is made and nothing is posted. */
  lemma ValidOperand(s: PoolState, player: Option<Player>, command: string, args: seq<string>, n: int)
    requires CommandPool(command).Some? && Get(s, CommandPool(command).value).Num?
    requires |args| >= 2 && (args[0] == "add" || args[0] == "sub" || args[0] == "set")
    requires OperandValue(args[1]) == Some(n)
    ensures var p := CommandPool(command).value;
            var v := Get(s, p).n;
            var r := CmdOutcome(s, player, command, args);
            Get(r.pools, p) == Num(if args[0] == "add" then v + n else if args[0] == "sub" then v - n else n) &&
            Get(r.pools, Other(p)) == Get(s, Other(p)) &&
            (player.Some? ==> r.events == [Announce(player.value, ActionText(player.value.name, args[0], Some(p), Some(args[1]))),
                                           Broadcast(BuildPoolHtml(r.pools)), HandoutSet(BuildPoolHtml(r.pools))]) &&
            (player.None? ==> r.events == [])
  {
  }

  /** The announcement of `add`, `sub` or `set` opens with the player's
      name and shows both the operand, in bold, and the formatted pool. */
  lemma ActionTextMentions(name: string, action: string, p: Pool, a: string)
    requires action == "add" || action == "sub" || action == "set"
    ensures var r := ActionText(name, action, Some(p), Some(a));
            name <= r && Occurs("<b>" + a + "</b>", r) && Occurs(FormatPoolName(p), r)
  {
    if action == "add" {
      AddTextMentions(name, p, a);
    } else if action == "sub" {
      SubTextMentions(name, p, a);
    } else {
      SetTextMentions(name, p, a);
    }
  }

  lemma AddTextMentions(name: string, p: Pool, a: string)
    ensures var r := ActionText(name, "add", Some(p), Some(a));
            name <= r && Occurs("<b>" + a + "</b>", r) && Occurs(FormatPoolName(p), r)
  {
    var bold := "<b>" + a + "</b>";
    var pool := FormatPoolName(p);
    assert ActionText(name, "add", Some(p), Some(a)) == name + " adds " + bold + " to " + pool by {
      assert "add" != ActionShow;
    }
    OccursAtEnd(name + " adds ", bold);
    OccursExtend(bold, name + " adds " + bold, " to ");
    OccursExtend(bold, name + " adds " + bold + " to ", pool);
    OccursAtEnd(name + " adds " + bold + " to ", pool);
  }

  lemma SubTextMentions(name: string, p: Pool, a: string)
    ensures var r := ActionText(name, "sub", Some(p), Some(a));
            name <= r && Occurs("<b>" + a + "</b>", r) && Occurs(FormatPoolName(p), r)
  {
    var bold := "<b>" + a + "</b>";
    var pool := FormatPoolName(p);
    assert ActionText(name, "sub", Some(p), Some(a)) == name + " removes " + bold + " from " + pool by {
      assert "sub" != ActionShow && "sub" != ActionAdd;
    }
    OccursAtEnd(name + " removes ", bold);
    OccursExtend(bold, name + " removes " + bold, " from ");
    OccursExtend(bold, name + " removes " + bold + " from ", pool);
    OccursAtEnd(name + " removes " + bold + " from ", pool);
  }

  lemma SetTextMentions(name: string, p: Pool, a: string)
    ensures var r := ActionText(name, "set", Some(p), Some(a));
            name <= r && Occurs("<b>" + a + "</b>", r) && Occurs(FormatPoolName(p), r)
  {
    var bold := "<b>" + a + "</b>";
    var pool := FormatPoolName(p);
    assert ActionText(name, "set", Some(p), Some(a)) == name + " sets " + pool + " to " + bold by {
      assert "set" != ActionShow && "set" != ActionAdd && "set" != ActionSub;
    }
    OccursAtEnd(name + " sets ", pool);
    OccursExtend(pool, name + " sets " + pool, " to ");
    OccursExtend(pool, name + " sets " + pool + " to ", bold);
    OccursAtEnd(name + " sets " + pool + " to ", bold);
  }

  /** The announcement texts of `_chatActionTaken`, written out for one player. */
  lemma ActionTextExamples()
    ensures ActionText("Kirk", "add", Some(Momentum), Some("5")) ==
            "Kirk adds <b>5</b> to " + FormatPoolName(Momentum)
    ensures ActionText("Kirk", "sub", Some(Threat), Some("2")) ==
            "Kirk removes <b>2</b> from " + FormatPoolName(Threat)
    ensures ActionText("Kirk", "set", Some(Threat), None) ==
            "Kirk sets " + FormatPoolName(Threat) + " to <b>null</b>"
    ensures ActionText("Kirk", "show", Some(Momentum), Some("5")) == "Showing pools."
    ensures ActionText("Kirk", "reset", Some(Threat), None) == ""
  {
  }

  /** An absent or empty operand is reported to the requester; nothing
      changes and nothing else is posted. */
  lemma MissingOperand(s: PoolState, player: Option<Player>, command: string, args: seq<string>)
    requires CommandPool(command).Some? && Get(s, CommandPool(command).value).Num?
    requires |args| >= 1 && (args[0] == "add" || args[0] == "sub" || args[0] == "set")
    requires |args| == 1 || args[1] == ""
    ensures CmdOutcome(s, player, command, args) ==
            Outcome(s, [Error(NameOf(player), MissingText(args[0], CommandPool(command).value))])
  {
  }

  /** An operand that is not a number is reported as invalid; nothing
      changes and nothing else is posted. */
  lemma InvalidOperand(s: PoolState, player: Option<Player>, command: string, args: seq<string>)
    requires CommandPool(command).Some? && Get(s, CommandPool(command).value).Num?
    requires |args| >= 2 && (args[0] == "add" || args[0] == "sub" || args[0] == "set")
    requires args[1] != "" && OperandValue(args[1]).None?
    ensures CmdOutcome(s, player, command, args) ==
            Outcome(s, [Error(NameOf(player), InvalidText(args[0], CommandPool(command).value))])
  {
  }

  /** An action word the tracker does not know (`reset` among them) makes
      `_modifyPool` succeed without a change: an empty announcement, the
      pools re-posted and the handout rewritten. */
  lemma UnknownActionRebroadcasts(s: PoolState, pl: Player, command: string, args: seq<string>)
    requires CommandPool(command).Some? && Get(s, CommandPool(command).value).Num?
    requires |args| >= 1 && args[0] != "add" && args[0] != "sub" && args[0] != "set"
    requires args[0] != "show" && args[0] != "empty"
    ensures CmdOutcome(s, Some(pl), command, args) ==
            Outcome(s, [Announce(pl, ""), Broadcast(BuildPoolHtml(s)), HandoutSet(BuildPoolHtml(s))])
  {
  }

  /** Once the selected pool holds a non-number, every action other than
      `show` and `empty` on it is silently dropped. */
  lemma NaNPoolIgnoresCommands(s: PoolState, player: Option<Player>, command: string, args: seq<string>)
    requires CommandPool(command).Some? && Get(s, CommandPool(command).value).NaN?
    requires |args| >= 1 && args[0] != "show" && args[0] != "empty"
    ensures CmdOutcome(s, player, command, args) == Outcome(s, [])
  {
  }

  /** A bare command, `show` and an unknown action never change the pools. */
  lemma ReadOnlyCommands(s: PoolState, player: Option<Player>, command: string, args: seq<string>)
    requires |args| == 0 || args[0] == "show" ||
             (args[0] != "add" && args[0] != "sub" && args[0] != "set" && args[0] != "empty")
    ensures CmdOutcome(s, player, command, args).pools == s
  {
  }

  /** Apart from `empty`, a command leaves the pool it does not select untouched. */
  lemma OtherPoolUntouched(s: PoolState, player: Option<Player>, command: string, args: seq<string>)
    requires CommandPool(command).Some?
    requires |args| == 0 || args[0] != "empty"
    ensures Get(CmdOutcome(s, player, command, args).pools, Other(CommandPool(command).value)) ==
            Get(s, Other(CommandPool(command).value))
  {
  }

  /** Whenever a player's command changes the pools, its last two effects
      post the new pools and write them to the handout. */
  lemma ChangesAreShown(s: PoolState, pl: Player, command: string, args: seq<string>)
    requires CmdOutcome(s, Some(pl), command, args).pools != s
    ensures var r := CmdOutcome(s, Some(pl), command, args);
            |r.events| >= 2 && r.events[|r.events| - 2] == Broadcast(BuildPoolHtml(r.pools)) &&
            r.events[|r.events| - 1] == HandoutSet(BuildPoolHtml(r.pools))
  {
  }

  // ---------------------------------------------------------------------
  // Whole messages
  // ---------------------------------------------------------------------

  /** One `add`, `sub` or `set` message with a valid operand applies it to
      the pool its first word selects and leaves the other pool alone. */
  lemma ActionMessage(s: PoolState, sender: Option<Player>, c: string, action: string, token: string)
    requires NoSpace(c) && NoSpace(token) && ("!m" <= c || "!t" <= c)
    requires action == "add" || action == "sub" || action == "set"
    requires OperandValue(token).Some? && Get(s, TargetOf(c)).Num?
    ensures MessageOutcome(s, Message("api", Join([c, action, token]), sender)).pools ==
            Put(s, TargetOf(c), Num(Apply(action, Get(s, TargetOf(c)).n, OperandValue(token).value)))
  {
    var words := [c, action, token];
    HandleWords(s, sender, words);
    ValidOperand(s, sender, FindPrefix(Commands, Join(words)).value, words[1..], OperandValue(token).value);
    var r := MessageOutcome(s, Message("api", Join(words), sender)).pools;
    var t := Put(s, TargetOf(c), Num(Apply(action, Get(s, TargetOf(c)).n, OperandValue(token).value)));
    assert r.momentum == t.momentum && r.threat == t.threat by {
      if TargetOf(c) == Momentum {} else {}
    }
  }

  /** `add n` followed by `sub n` on the same prefix restores the pools. */
  lemma AddThenSubRestores(s: PoolState, sender: Option<Player>, c: string, token: string)
    requires NoSpace(c) && NoSpace(token) && ("!m" <= c || "!t" <= c)
    requires OperandValue(token).Some? && Get(s, TargetOf(c)).Num?
    ensures var once := MessageOutcome(s, Message("api", Join([c, "add", token]), sender)).pools;
            MessageOutcome(once, Message("api", Join([c, "sub", token]), sender)).pools == s
  {
    var p := TargetOf(c);
    var n := OperandValue(token).value;
    ActionMessage(s, sender, c, "add", token);
    var once := MessageOutcome(s, Message("api", Join([c, "add", token]), sender)).pools;
    assert once == Put(s, p, Num(Get(s, p).n + n));
    ActionMessage(once, sender, c, "sub", token);
    assert Get(s, p) == Num(Get(s, p).n + n - n);
    PutBack(s, p, Num(Get(s, p).n + n));
  }

  /** Any message whose first argument is `set`, sent twice, leaves the
      pools as sending it once does. */
  lemma SetIsIdempotent(s: PoolState, msg: Message)
    requires |Split(msg.content)| >= 2 && Split(msg.content)[1] == "set"
    ensures var once := MessageOutcome(s, msg).pools;
            MessageOutcome(once, msg).pools == once
  {
    var found := FindPrefix(Commands, msg.content);
    if msg.kind == "api" && found.Some? {
      var args := Split(msg.content)[1..];
      var arg1 := if |args| >= 2 then Some(args[1]) else None;
      match CommandPool(found.value)
      case None =>
      case Some(p) =>
        var m := ModifyOutcome(s, msg.sender, p, "set", arg1);
        if m.ok {
          var m2 := ModifyOutcome(m.pools, msg.sender, p, "set", arg1);
          assert m2.pools == Put(m.pools, p, Get(m.pools, p));
          if p == Momentum {
            assert m2.pools.momentum == m.pools.momentum && m2.pools.threat == m.pools.threat;
          } else {
            assert m2.pools.threat == m.pools.threat && m2.pools.momentum == m.pools.momentum;
          }
        }
    }
  }

  /** `!tally add 1` is a Threat command: its prefix `!t` is all that is matched. */
  lemma TallyAddsToThreat(s: PoolState, sender: Option<Player>)
    requires s.threat.Num?
    ensures MessageOutcome(s, Message("api", Join(["!tally", "add", "1"]), sender)).pools == s.(threat := Num(s.threat.n + 1))
  {
    assert "!t" <= "!tally" && TargetOf("!tally") == Threat by {
      assert "!tally"[1] != 'm';
    }
    assert OperandValue("1") == Some(1) by {
      DecimalOperand("1");
    }
    ActionMessage(s, sender, "!tally", "add", "1");
    assert Put(s, Threat, Num(Apply("add", s.threat.n, 1))) == s.(threat := Num(s.threat.n + 1));
  }

  /** `!momentum add 5` on fresh pools gives momentum 5 and threat 0. */
  lemma MomentumAddFive(sender: Option<Player>)
    ensures MessageOutcome(Zeroed, Message("api", Join(["!momentum", "add", "5"]), sender)).pools == PoolState(Num(5), Num(0))
  {
    assert "!m" <= "!momentum" && TargetOf("!momentum") == Momentum;
    assert OperandValue("5") == Some(5) by {
      DecimalOperand("5");
    }
    ActionMessage(Zeroed, sender, "!momentum", "add", "5");
    assert Put(Zeroed, Momentum, Num(Apply("add", 0, 5))) == PoolState(Num(5), Num(0));
  }

  /** `!m sub 3` takes momentum from 5 to 2. */
  lemma ShortFormSubtracts(s: PoolState, sender: Option<Player>)
    requires s.momentum == Num(5)
    ensures MessageOutcome(s, Message("api", Join(["!m", "sub", "3"]), sender)).pools == s.(momentum := Num(2))
  {
    assert "!m" <= "!m" && TargetOf("!m") == Momentum;
    assert OperandValue("3") == Some(3) by {
      DecimalOperand("3");
    }
    ActionMessage(s, sender, "!m", "sub", "3");
    assert Put(s, Momentum, Num(Apply("sub", 5, 3))) == s.(momentum := Num(2));
  }

  /** `!threat set abc` changes nothing; the requester alone is told the value is invalid. */
  lemma SetWordRejected(s: PoolState, pl: Player)
    requires s.threat.Num?
    ensures MessageOutcome(s, Message("api", Join(["!threat", "set", "abc"]), Some(pl))) ==
            Outcome(s, [Error(Some(pl.name), InvalidText("set", Threat))])
  {
    var words := ["!threat", "set", "abc"];
    assert "!threat"[1] == 't';
    HandleWords(s, Some(pl), words);
    ParseIntNoDigits("abc");
    assert words[1..][0] == "set" && words[1..][1] == "abc";
    InvalidOperand(s, Some(pl), FindPrefix(Commands, Join(words)).value, words[1..]);
  }

  /** Two spaces before the operand leave an empty second argument, which
      is reported as a missing value. */
  lemma DoubleSpaceIsMissingValue(s: PoolState, pl: Player)
    requires s.momentum.Num?
    ensures MessageOutcome(s, Message("api", "!m add  5", Some(pl))) ==
            Outcome(s, [Error(Some(pl.name), "Missing value to add/subtract from momentum")])
  {
    var words := ["!m", "add", "", "5"];
    assert Join(words[2..]) == "" + " " + "5";
    assert Join(words[1..]) == "add" + " " + Join(words[2..]);
    assert Join(words) == "!m add  5";
    HandleWords(s, Some(pl), words);
    assert words[1..][0] == "add" && words[1..][1] == "";
    MissingOperand(s, Some(pl), FindPrefix(Commands, Join(words)).value, words[1..]);
    assert MissingText("add", Momentum) == "Missing value to add/subtract from momentum";
  }

  /** `!threat reset` is not a reset in this version: the pools stay as they are and are re-posted. */
  lemma ResetIsNotSpecial(s: PoolState, pl: Player)
    requires s.threat.Num?
    ensures MessageOutcome(s, Message("api", "!threat reset", Some(pl))) ==
            Outcome(s, [Announce(pl, ""), Broadcast(BuildPoolHtml(s)), HandoutSet(BuildPoolHtml(s))])
  {
    var words := ["!threat", "reset"];
    assert Join(words) == "!threat reset";
    assert "!threat"[1] == 't';
    HandleWords(s, Some(pl), words);
    UnknownActionRebroadcasts(s, pl, FindPrefix(Commands, Join(words)).value, words[1..]);
  }

  // ---------------------------------------------------------------------
  // The exported setters
  // ---------------------------------------------------------------------

  /** The exported `setThreat` and `modThreat` change threat and never momentum. */
  lemma ThreatSettersWriteThreat(s: PoolState, n: int)
    ensures SetField(s, Threat, Number(Num(n))) == PoolState(s.momentum, Num(n))
    ensures s.threat.Num? ==> ModField(s, Threat, Number(Num(n))) == PoolState(s.momentum, Num(s.threat.n + n))
    ensures forall val :: SetField(s, Threat, val).momentum == s.momentum && ModField(s, Threat, val).momentum == s.momentum
  {
  }

  // ---------------------------------------------------------------------
  // Operands
  // ---------------------------------------------------------------------

  /** Every optionally signed decimal integer is a valid operand worth
      the number it spells. */
  lemma DecimalOperand(token: string)
    requires ParseDecimal(token).Some?
    ensures OperandValue(token) == ParseDecimal(token)
  {
    DecimalIsNumeric(token);
    ParseIntOfDecimal(token);
  }

  /** A fraction passes the `isNaN` test and `parseInt` keeps its integer part. */
  lemma FractionTruncated()
    ensures OperandValue("1.5") == Some(1) && OperandValue("-2.75") == Some(-2)
  {
  }

  /** An exponent passes the `isNaN` test but `parseInt` stops before it:
      `1e3` counts as 1. */
  lemma ExponentIgnored()
    ensures IsNumeric("1e3") && OperandValue("1e3") == Some(1)
  {
  }

  /** A hexadecimal literal is read in radix 16 by both conversions. */
  lemma HexOperand()
    ensures OperandValue("0x1f") == Some(31)
  {
    assert LeadingHexDigits("0x1f"[2..]) == "1f";
    assert HexValue("1f") == HexValue("1") * 16 + 15;
  }

  /** A binary literal passes the `isNaN` test, but `parseInt` reads only its leading `0`. */
  lemma BinaryReadsAsZero()
    ensures IsNumeric("0b11") && OperandValue("0b11") == Some(0)
  {
  }

  /** `Infinity` is a number to `isNaN` but not to `parseInt`, so it is rejected. */
  lemma InfinityRejected()
    ensures IsNumeric("Infinity") && IsNumeric("-Infinity")
    ensures OperandValue("Infinity") == None && OperandValue("-Infinity") == None
  {
    assert IsNumeric("Infinity") && IsNumeric("-Infinity");
    ParseIntNoDigits("Infinity");
    assert "-Infinity"[1..] == "Infinity";
  }

  /** Unlike the earlier version, a token with trailing letters is rejected. */
  lemma DiceNotationRejected()
    ensures !IsNumeric("3d6") && OperandValue("3d6") == None
  {
  }

  // ---------------------------------------------------------------------
  // Rendering
  // ---------------------------------------------------------------------

  /** The momentum text sits right after the opening markup and the
      threat text after the markup between them, so momentum comes first;
      a NaN shows as `NaN`. */
  lemma RenderLayout(s: PoolState)
    ensures var r := BuildPoolHtml(s);
            var i := |HtmlOpen|;
            var j := i + |ValueText(s.momentum)| + |HtmlMid|;
            j + |ValueText(s.threat)| <= |r| &&
            r[i..i + |ValueText(s.momentum)|] == ValueText(s.momentum) &&
            r[j..j + |ValueText(s.threat)|] == ValueText(s.threat)
    ensures s.momentum.NaN? ==> BuildPoolHtml(s)[|HtmlOpen|..|HtmlOpen| + 3] == "NaN"
  {
    FieldsAt(HtmlOpen, ValueText(s.momentum), HtmlMid, ValueText(s.threat), HtmlClose);
  }

  /** The rendered view determines both pools: two records that render
      alike are the same record. */
  lemma RenderDeterminesPools(s: PoolState, t: PoolState)
    requires BuildPoolHtml(s) == BuildPoolHtml(t)
    ensures s == t
  {
    assert HtmlMid[0] == '<' && HtmlClose[0] == '<';
    FieldsDetermined(HtmlOpen, ValueText(s.momentum), HtmlMid, ValueText(s.threat), HtmlClose,
                     ValueText(t.momentum), ValueText(t.threat));
    ValueTextDeterminesValue(s.momentum, t.momentum);
    ValueTextDeterminesValue(s.threat, t.threat);
  }
}
