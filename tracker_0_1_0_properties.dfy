/** What version 0.1.0 of the tracker guarantees, and where it goes wrong,
    stated over the functions of `Tracker010` that its `PoolTracker`
    methods are proved to follow. */
module Tracker010Properties {
  import opened Text
  import opened Pools
  import opened JsNumber
  import opened Tracker010

  // ---------------------------------------------------------------------
  // Recognizing and tokenizing
  // ---------------------------------------------------------------------

  /** A message is a command exactly when it starts with `!momentum` or
      `!threat`, and that word selects the pool. */
  lemma RecognizeByPrefix(content: string)
    ensures FindPrefix(Commands, content).Some? <==> "!momentum" <= content || "!threat" <= content
    ensures FindPrefix(Commands, content).Some? ==> CommandPool(FindPrefix(Commands, content).value).Some?
    ensures Recognize(content) == Some(Momentum) <==> "!momentum" <= content
    ensures Recognize(content) == Some(Threat) <==> "!threat" <= content
  {
    assert Commands[1..] == ["!threat"];
    assert "!momentum" <= content ==> !("!threat" <= content) by {
      if "!momentum" <= content { assert content[1] == 'm'; }
    }
    if "!momentum" <= content {
      assert FindPrefix(Commands, content) == Some("!momentum");
    } else {
      assert FindPrefix(Commands, content) == FindPrefix(Commands[1..], content);
    }
  }

  /** A message that is not of type `api`, or that starts with neither
      command word, changes nothing and produces no output. */
  lemma IgnoredMessage(s: PoolState, msg: Message)
    requires msg.kind != "api" || !("!momentum" <= msg.content || "!threat" <= msg.content)
    ensures MessageOutcome(s, msg) == Outcome(s, [])
  {
    RecognizeByPrefix(msg.content);
  }

  /** The short forms of later versions are not commands here. */
  lemma ShortFormsIgnored(s: PoolState, sender: Option<Player>)
    ensures MessageOutcome(s, Message("api", "!m add 1", sender)) == Outcome(s, [])
    ensures MessageOutcome(s, Message("api", "!t add 1", sender)) == Outcome(s, [])
  {
    assert "!t add 1"[2] != "!threat"[2];
    IgnoredMessage(s, Message("api", "!m add 1", sender));
    IgnoredMessage(s, Message("api", "!t add 1", sender));
  }

  /** The handler passes a recognized command on with its arguments. */
  lemma MessageReachesHandler(s: PoolState, msg: Message)
    requires msg.kind == "api" && FindPrefix(Commands, msg.content).Some?
    ensures MessageOutcome(s, msg) == CmdOutcome(s, msg.sender, FindPrefix(Commands, msg.content).value, Split(msg.content)[1..])
  {
  }

  /** A command typed as space-separated words reaches `_handleCmd` with
      every word after the first, and with the pool its first word selects. */
  lemma HandleWords(s: PoolState, sender: Option<Player>, words: seq<string>)
    requires |words| >= 1 && forall i :: 0 <= i < |words| ==> NoSpace(words[i])
    requires "!momentum" <= words[0] || "!threat" <= words[0]
    ensures FindPrefix(Commands, Join(words)).Some?
    ensures CommandPool(FindPrefix(Commands, Join(words)).value) ==
            Some(if "!momentum" <= words[0] then Momentum else Threat)
    ensures MessageOutcome(s, Message("api", Join(words), sender)) ==
            CmdOutcome(s, sender, FindPrefix(Commands, Join(words)).value, words[1..])
  {
    var content := Join(words);
    if "!momentum" <= words[0] {
      PrefixOfJoin("!momentum", words);
    } else {
      PrefixOfJoin("!threat", words);
    }
    RecognizeByPrefix(content);
    SplitJoin(words);
    MessageReachesHandler(s, Message("api", content, sender));
  }

  // ---------------------------------------------------------------------
  // The dispatcher, case by case
  // ---------------------------------------------------------------------

  /** With no arguments the pools are posted to everyone, and nothing changes. */
  lemma BareCommandBroadcasts(s: PoolState, player: Option<Player>, command: string)
    ensures CmdOutcome(s, player, command, []) == Outcome(s, [Broadcast(BuildPoolHtml(s))])
  {
  }

  /** `reset` zeroes both pools whichever command word was used, and posts
      them, even when a pool held NaN. */
  lemma ResetZeroesBoth(s: PoolState, player: Option<Player>, command: string, args: seq<string>)
    requires |args| >= 1 && args[0] == "reset"
    ensures CmdOutcome(s, player, command, args) ==
            Outcome(PoolState(Num(0), Num(0)), [Broadcast(BuildPoolHtml(Zeroed))])
  {
  }

  /** An action word other than `add`, `sub`, `set` and `reset` (`show` and
      `empty` among them) changes nothing and posts nothing. */
  lemma UnknownActionIsSilent(s: PoolState, player: Option<Player>, command: string, args: seq<string>)
    requires |args| >= 1 && args[0] != "add" && args[0] != "sub" && args[0] != "set" && args[0] != "reset"
    ensures CmdOutcome(s, player, command, args) == Outcome(s, [])
  {
  }

  /** An operand with leading digits adds to, subtracts from or replaces
      the selected pool by the number they spell, leaves the other pool
      alone, and the new pools are posted. */
  lemma NumericOperand(s: PoolState, player: Option<Player>, command: string, args: seq<string>, n: int)
    requires CommandPool(command).Some? && Get(s, CommandPool(command).value).Num?
    requires |args| >= 2 && (args[0] == "add" || args[0] == "sub" || args[0] == "set")
    requires ParseInt(args[1]) == Some(n)
    ensures var p := CommandPool(command).value;
            var v := Get(s, p).n;
            var r := CmdOutcome(s, player, command, args);
            Get(r.pools, p) == Num(if args[0] == "add" then v + n else if args[0] == "sub" then v - n else n) &&
            Get(r.pools, Other(p)) == Get(s, Other(p)) &&
            r.events == [Broadcast(BuildPoolHtml(r.pools))]
  {
  }

  /** An absent or empty operand is reported to the requester; nothing
      changes. The `set` message names momentum whichever pool was meant. */
  lemma MissingOperand(s: PoolState, player: Option<Player>, command: string, args: seq<string>)
    requires CommandPool(command).Some? && Get(s, CommandPool(command).value).Num?
    requires |args| >= 1 && (args[0] == "add" || args[0] == "sub" || args[0] == "set")
    requires |args| == 1 || args[1] == ""
    ensures CmdOutcome(s, player, command, args) ==
            Outcome(s, [Error(NameOf(player),
                              if args[0] == "set" then "Missing value to set momentum to."
                              else "Missing value to add/subtract from " + PoolName(CommandPool(command).value))])
  {
  }

  /** `_.isNumber` accepts whatever `parseInt` returns, so no command, from
      any record, ever produces the invalid-value report. */
  lemma OperandAlwaysNumber(s: PoolState, player: Option<Player>, command: string, args: seq<string>)
    ensures Error(NameOf(player), InvalidText) !in CmdOutcome(s, player, command, args).events
  {
  }

  /** An operand without leading digits is not rejected: the selected pool
      becomes NaN, and that is posted. */
  lemma NonNumericCorrupts(s: PoolState, player: Option<Player>, command: string, args: seq<string>)
    requires CommandPool(command).Some? && Get(s, CommandPool(command).value).Num?
    requires |args| >= 2 && (args[0] == "add" || args[0] == "sub" || args[0] == "set")
    requires args[1] != "" && ParseInt(args[1]).None?
    ensures var after := Put(s, CommandPool(command).value, NaN);
            CmdOutcome(s, player, command, args) == Outcome(after, [Broadcast(BuildPoolHtml(after))])
  {
  }

  /** Once the selected pool holds NaN, every action other than `reset` on
      it is silently dropped. */
  lemma NaNPoolIsStuck(s: PoolState, player: Option<Player>, command: string, args: seq<string>)
    requires CommandPool(command).Some? && Get(s, CommandPool(command).value).NaN?
    requires |args| >= 1 && args[0] != "reset"
    ensures CmdOutcome(s, player, command, args) == Outcome(s, [])
  {
  }

  /** Apart from `reset`, a command leaves the pool it does not select untouched. */
  lemma OtherPoolUntouched(s: PoolState, player: Option<Player>, command: string, args: seq<string>)
    requires CommandPool(command).Some?
    requires |args| == 0 || args[0] != "reset"
    ensures Get(CmdOutcome(s, player, command, args).pools, Other(CommandPool(command).value)) ==
            Get(s, Other(CommandPool(command).value))
  {
  }

  /** Whenever a command changes the pools, its one effect is to post the new pools. */
  lemma ChangesAreShown(s: PoolState, player: Option<Player>, command: string, args: seq<string>)
    requires CmdOutcome(s, player, command, args).pools != s
    ensures var r := CmdOutcome(s, player, command, args);
            r.events == [Broadcast(BuildPoolHtml(r.pools))]
  {
  }

  // ---------------------------------------------------------------------
  // Whole messages
  // ---------------------------------------------------------------------

  /** `add` followed by `sub` with the same numeric operand restores the pools. */
  lemma AddThenSubRestores(s: PoolState, sender: Option<Player>, c: string, token: string)
    requires NoSpace(c) && NoSpace(token) && ("!momentum" <= c || "!threat" <= c)
    requires var p := if "!momentum" <= c then Momentum else Threat;
             ParseInt(token).Some? && Get(s, p).Num?
    ensures var once := MessageOutcome(s, Message("api", Join([c, "add", token]), sender)).pools;
            MessageOutcome(once, Message("api", Join([c, "sub", token]), sender)).pools == s
  {
    var n := ParseInt(token).value;
    var p := if "!momentum" <= c then Momentum else Threat;
    var add, sub := [c, "add", token], [c, "sub", token];
    HandleWords(s, sender, add);
    var once := MessageOutcome(s, Message("api", Join(add), sender)).pools;
    NumericOperand(s, sender, FindPrefix(Commands, Join(add)).value, add[1..], n);
    assert Get(once, p) == Num(Get(s, p).n + n);
    HandleWords(once, sender, sub);
    var twice := MessageOutcome(once, Message("api", Join(sub), sender)).pools;
    NumericOperand(once, sender, FindPrefix(Commands, Join(sub)).value, sub[1..], n);
    assert Get(twice, p) == Get(s, p) && Get(twice, Other(p)) == Get(s, Other(p));
    if p == Momentum {
      assert twice.momentum == s.momentum && twice.threat == s.threat;
    } else {
      assert twice.threat == s.threat && twice.momentum == s.momentum;
    }
  }

  /** Any message whose first argument is `set`, sent twice, leaves the
      pools as sending it once does, even when the first one stored NaN. */
  lemma SetIsIdempotent(s: PoolState, msg: Message)
    requires |Split(msg.content)| >= 2 && Split(msg.content)[1] == "set"
    ensures var once := MessageOutcome(s, msg).pools;
            MessageOutcome(once, msg).pools == once
  {
    var found := FindPrefix(Commands, msg.content);
    if msg.kind == "api" && found.Some? {
      var args := Split(msg.content)[1..];
      var arg1 := if |args| >= 2 then Some(args[1]) else None;
      match CommandPool(found.value)
      case None =>
      case Some(p) =>
        var r := ModifyOutcome(s, msg.sender, p, "set", arg1);
        if r.pools != s {
          var v := OperandValue(arg1);
          assert r.pools == Put(s, p, v);
          if v.Num? {
            var r2 := ModifyOutcome(r.pools, msg.sender, p, "set", arg1);
            assert r2.pools == Put(r.pools, p, v);
            if p == Momentum {
              assert r2.pools.momentum == r.pools.momentum && r2.pools.threat == r.pools.threat;
            } else {
              assert r2.pools.threat == r.pools.threat && r2.pools.momentum == r.pools.momentum;
            }
          }
        }
    }
  }

  /** `parseInt` stops at the first letter: `3d6` reads as 3. */
  lemma ReadsLeadingThree()
    ensures ParseInt("3d6") == Some(3)
  {
    ParseIntStopsAtNonDigit("3", "d6");
    assert "3" + "d6" == "3d6";
  }

  /** `parseInt` reads only the leading digits: `!threat add 3d6` adds 3. */
  lemma TrailingTextIgnored(s: PoolState, sender: Option<Player>)
    requires s.threat.Num?
    ensures MessageOutcome(s, Message("api", "!threat add 3d6", sender)).pools == s.(threat := Num(s.threat.n + 3))
  {
    var words := ["!threat", "add", "3d6"];
    assert Join(words) == "!threat add 3d6";
    HandleWords(s, sender, words);
    ReadsLeadingThree();
    var command := FindPrefix(Commands, Join(words)).value;
    assert words[1..] == ["add", "3d6"];
    NumericOperand(s, sender, command, words[1..], 3);
    var r := CmdOutcome(s, sender, command, words[1..]).pools;
    assert r.threat == Num(s.threat.n + 3) && r.momentum == s.momentum;
  }

  /** `!threat add x` stores NaN in the threat pool. */
  lemma MistypedOperandStoresNaN(s: PoolState, sender: Option<Player>)
    requires s.threat.Num?
    ensures MessageOutcome(s, Message("api", "!threat add x", sender)).pools == s.(threat := NaN)
  {
    var words := ["!threat", "add", "x"];
    assert Join(words) == "!threat add x";
    HandleWords(s, sender, words);
    ParseIntNoDigits("x");
    NonNumericCorrupts(s, sender, FindPrefix(Commands, Join(words)).value, words[1..]);
  }

  /** With NaN in the threat pool, `!threat add 1` does nothing. */
  lemma NaNThreatIgnoresAdd(s: PoolState, sender: Option<Player>)
    requires s.threat.NaN?
    ensures MessageOutcome(s, Message("api", "!threat add 1", sender)) == Outcome(s, [])
  {
    var words := ["!threat", "add", "1"];
    assert Join(words) == "!threat add 1";
    HandleWords(s, sender, words);
    NaNPoolIsStuck(s, sender, FindPrefix(Commands, Join(words)).value, words[1..]);
  }

  /** `!threat reset` zeroes the pools from any record. */
  lemma ThreatResetZeroes(s: PoolState, sender: Option<Player>)
    ensures MessageOutcome(s, Message("api", "!threat reset", sender)).pools == Zeroed
  {
    var words := ["!threat", "reset"];
    assert Join(words) == "!threat reset";
    HandleWords(s, sender, words);
    ResetZeroesBoth(s, sender, FindPrefix(Commands, Join(words)).value, words[1..]);
  }

  /** A mistyped operand stores NaN in the threat pool; later arithmetic
      on it is ignored, and only `reset` brings the pools back. */
  lemma CorruptionUntilReset(sender: Option<Player>)
    ensures var a := MessageOutcome(Zeroed, Message("api", "!threat add x", sender)).pools;
            var b := MessageOutcome(a, Message("api", "!threat add 1", sender)).pools;
            var c := MessageOutcome(b, Message("api", "!threat reset", sender)).pools;
            a == PoolState(Num(0), NaN) && b == a && c == Zeroed
  {
    MistypedOperandStoresNaN(Zeroed, sender);
    var a := PoolState(Num(0), NaN);
    NaNThreatIgnoresAdd(a, sender);
    ThreatResetZeroes(a, sender);
  }

  // ---------------------------------------------------------------------
  // The exported setters
  // ---------------------------------------------------------------------

  /** The exported `setThreat` and `modThreat` change momentum and never threat. */
  lemma ThreatSettersWriteMomentum(s: PoolState, n: int)
    ensures SetThreatOutcome(s, Number(Num(n))) == PoolState(Num(n), s.threat)
    ensures s.momentum.Num? ==> ModThreatOutcome(s, Number(Num(n))) == PoolState(Num(s.momentum.n + n), s.threat)
    ensures forall val :: SetThreatOutcome(s, val).threat == s.threat && ModThreatOutcome(s, val).threat == s.threat
  {
  }

  // ---------------------------------------------------------------------
  // Rendering
  // ---------------------------------------------------------------------

  /** The momentum text sits right after the opening markup and the
      threat text after the markup between them; a NaN shows as `NaN`. */
  lemma RenderLayout(s: PoolState)
    ensures var r := BuildPoolHtml(s);
            var i := |HtmlOpen|;
            var j := i + |ValueText(s.momentum)| + |HtmlMid|;
            j + |ValueText(s.threat)| <= |r| &&
            r[i..i + |ValueText(s.momentum)|] == ValueText(s.momentum) &&
            r[j..j + |ValueText(s.threat)|] == ValueText(s.threat)
    ensures s.momentum.NaN? ==> BuildPoolHtml(s)[|HtmlOpen|..|HtmlOpen| + 3] == "NaN"
  {
    FieldsAt(HtmlOpen, ValueText(s.momentum), HtmlMid, ValueText(s.threat), HtmlClose);
  }

  /** The rendered view determines both pools: two records that render
      alike are the same record. */
  lemma RenderDeterminesPools(s: PoolState, t: PoolState)
    requires BuildPoolHtml(s) == BuildPoolHtml(t)
    ensures s == t
  {
    assert HtmlMid[0] == '<' && HtmlClose[0] == '<';
    FieldsDetermined(HtmlOpen, ValueText(s.momentum), HtmlMid, ValueText(s.threat), HtmlClose,
                     ValueText(t.momentum), ValueText(t.threat));
    ValueTextDeterminesValue(s.momentum, t.momentum);
    ValueTextDeterminesValue(s.threat, t.threat);
  }
}
