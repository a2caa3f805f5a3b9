/** The message-command dispatcher and the `purge` command: the gates a message
    passes before it is read as a command, the tokenizer, the routing (only
    `purge` is routed), the fixed-order guard chain of `purge`, its amount
    check with `parseInt`, and the replies it makes. */
module Commands {
  import opened Wrappers
  import opened JsString
  import opened JsParseInt
  import opened Platform
  import opened Schema

  /** A command name and its arguments. */
  datatype Invocation = Invocation(name: string, args: seq<string>)

  /** Cuts the prefix, trims, splits on runs of spaces and lower-cases the first token. */
  function Tokenize(content: string, prefix: string): (r: Invocation)
    requires StartsWith(content, prefix)
    ensures ' ' !in r.name
    ensures forall a :: a in r.args ==> a != "" && ' ' !in a
    ensures r.name == "" <==> Trim(content[|prefix|..]) == ""
  {
    var body := Trim(content[|prefix|..]);
    var tokens := SplitOnSpaces(body);
    assert tokens[0] in tokens;
    assert body != "" ==> forall t :: t in tokens ==> t != "" by {
      if body != "" { SplitFieldsNonEmpty(body); }
    }
    assert forall a :: a in tokens[1..] ==> a in tokens;
    Invocation(ToLowerAscii(tokens[0]), tokens[1..])
  }

  /** The gates of the dispatcher: a message from a bot, an empty message, one
      without the prefix and one with nothing after the prefix are no command. */
  function ParseCommand(message: InboundMessage, prefix: string): (r: Option<Invocation>)
    ensures r.Some? <==> !message.authorIsBot && message.content != "" &&
                         StartsWith(message.content, prefix) &&
                         Trim(message.content[|prefix|..]) != ""
    ensures r.Some? ==> r.value == Tokenize(message.content, prefix) && r.value.name != ""
  {
    if message.authorIsBot || message.content == "" || !StartsWith(message.content, prefix) then None
    else
      var invocation := Tokenize(message.content, prefix);
      if invocation.name == "" then None else Some(invocation)
  }

  /** Tokenizing a message whose text after the prefix trims to a line that splits into `parts`. */
  lemma TokenizeTrimmed(prefix: string, body: string, parts: seq<string>)
    requires |parts| >= 1 && SplitOnSpaces(Trim(body)) == parts
    ensures StartsWith(prefix + body, prefix)
    ensures Tokenize(prefix + body, prefix) == Invocation(ToLowerAscii(parts[0]), parts[1..])
  {
    StartsWithConcat(prefix, body);
  }

  /** Round trip: the prefix, any white space, a name, arguments separated by
      runs of spaces, and any trailing white space tokenize to the lower-cased
      name and the arguments exactly as typed. Tokens are non-empty and hold no
      space (a tab inside one stays); only the two outer ends must not be white
      space, as `trim` would take them. */
  lemma TokenizeCommandLine(prefix: string, lead: string, name: string, args: seq<string>,
                            gaps: seq<nat>, trail: string)
    requires AllWhiteSpace(lead) && AllWhiteSpace(trail)
    requires PlainFields([name] + args)
    requires name != "" && !IsWhiteSpace(name[0])
    requires var last := ([name] + args)[|args|]; last != "" && !IsWhiteSpace(last[|last| - 1])
    requires |gaps| == |args| && forall i :: 0 <= i < |gaps| ==> gaps[i] >= 1
    ensures var content := prefix + (lead + JoinRuns([name] + args, gaps) + trail);
            StartsWith(content, prefix) &&
            Tokenize(content, prefix) == Invocation(ToLowerAscii(name), args)
  {
    var parts := [name] + args;
    PaddedRunsSplit(lead, parts, gaps, trail);
    TokenizeTrimmed(prefix, lead + JoinRuns(parts, gaps) + trail, parts);
    assert parts[0] == name && parts[1..] == args;
  }

  /** Where the dispatcher's `switch` sends a command name. */
  datatype Route = PurgeRoute | NotRouted

  function RouteOf(name: string): (r: Route)
    ensures r == PurgeRoute <==> name == "purge"
  {
    if name == "purge" then PurgeRoute else NotRouted
  }

  /** `setwelcome` and `getwelcome` have handlers but no case in the `switch`. */
  lemma WelcomeCommandsNotRouted()
    ensures RouteOf("setwelcome") == NotRouted && RouteOf("getwelcome") == NotRouted
  {
  }

  // ----- purge -----

  /** Why `purge` refuses, in the order the guards are checked. */
  datatype PurgeRejection =
    | NotGuildTextChannel
    | MemberLacksManageMessages
    | BotLacksManageMessages
    | InvalidAmount

  function RejectionReply(g: PurgeRejection): string
  {
    match g
    case NotGuildTextChannel => "This command can only be used in a server text channel."
    case MemberLacksManageMessages => "You do not have permission to use this command."
    case BotLacksManageMessages => "I do not have permission to delete messages in this channel."
    case InvalidAmount => "Please provide a number between 1 and 100 for the number of messages to delete."
  }

  /** `String(args[0])`: a missing argument reads as "undefined". */
  function FirstArgText(args: seq<string>): string
  {
    if args == [] then "undefined" else args[0]
  }

  /** `parseInt(args[0])` when it is a number in [1, 100]. */
  function ParseAmount(args: seq<string>): (r: Option<nat>)
    ensures r.Some? <==> ParseInt(FirstArgText(args)).Finite? &&
                         1 <= ParseInt(FirstArgText(args)).value <= 100
    ensures r.Some? ==> ParseInt(FirstArgText(args)) == Finite(r.value)
  {
    match ParseInt(FirstArgText(args))
    case NaN => None
    case Finite(n) => if n < 1 || n > 100 then None else Some(n)
  }

  /** With no argument there is no amount: `parseInt(undefined)` is NaN. */
  lemma MissingAmount()
    ensures ParseAmount([]) == None
  {
    var s := "undefined";
    TrimStartUnchanged(s);
    ParseIntNoDigit(s);
  }

  /** Every integer argument, with any tail that does not continue it, is
      accepted exactly when it lies in [1, 100]; "0", "-3" and "101" are not. */
  lemma AmountOfInteger(n: int, rest: string, more: seq<string>)
    requires EndsNumber(rest)
    ensures ParseAmount([IntString(n) + rest] + more) == if 1 <= n <= 100 then Some(n) else None
  {
    ParseIntString(n, rest);
  }

  /** The guard chain of `purge`: the first check that fails decides the reply;
      when all pass, the validated amount. */
  function CheckPurge(message: InboundMessage, args: seq<string>): (r: Result<nat, PurgeRejection>)
    ensures r == Failure(NotGuildTextChannel) <==>
              !(message.inGuild && message.channelType == GuildText)
    ensures r == Failure(MemberLacksManageMessages) <==>
              message.inGuild && message.channelType == GuildText && !message.memberCanManageMessages
    ensures r == Failure(BotLacksManageMessages) <==>
              message.inGuild && message.channelType == GuildText && message.memberCanManageMessages &&
              !message.botCanManageMessages
    ensures r == Failure(InvalidAmount) <==>
              message.inGuild && message.channelType == GuildText && message.memberCanManageMessages &&
              message.botCanManageMessages && ParseAmount(args).None?
    ensures r.Success? ==> Some(r.value) == ParseAmount(args) && 1 <= r.value <= 100
  {
    if !message.inGuild || message.channelType != GuildText then Failure(NotGuildTextChannel)
    else if !message.memberCanManageMessages then Failure(MemberLacksManageMessages)
    else if !message.botCanManageMessages then Failure(BotLacksManageMessages)
    else match ParseAmount(args)
      case None => Failure(InvalidAmount)
      case Some(n) => Success(n)
  }

  /** For a member and a bot that both may manage messages in a guild text
      channel, `purge n` deletes exactly when n is in [1, 100]. */
  lemma PurgeOfInteger(message: InboundMessage, n: int)
    requires message.inGuild && message.channelType == GuildText
    requires message.memberCanManageMessages && message.botCanManageMessages
    ensures CheckPurge(message, [IntString(n)]) ==
            if 1 <= n <= 100 then Success(n) else Failure(InvalidAmount)
  {
    var args := [IntString(n)];
    assert IntString(n) + "" == IntString(n);
    assert [IntString(n) + ""] + [] == args;
    AmountOfInteger(n, "", []);
    if 1 <= n <= 100 {
      assert ParseAmount(args) == Some(n);
    } else {
      assert ParseAmount(args) == None;
    }
  }

  const ConfirmationHead: string := "Successfully deleted "

  /** The confirmation reply, showing the size `bulkDelete` reported. */
  function ConfirmationReply(size: nat): string
  {
    ConfirmationHead + IntString(size) + " messages."
  }

  /** The count the confirmation shows reads back as the size `bulkDelete` reported. */
  lemma ConfirmationCount(size: nat)
    ensures StartsWith(ConfirmationReply(size), ConfirmationHead)
    ensures ParseInt(ConfirmationReply(size)[|ConfirmationHead|..]) == Finite(size)
  {
    var tail := IntString(size) + " messages.";
    var r := ConfirmationHead + tail;
    assert ConfirmationReply(size) == r;
    assert r[|ConfirmationHead|..] == tail;
    assert EndsNumber(" messages.");
    ParseIntString(size, " messages.");
  }

  const TooOldReply: string := "Cannot delete messages older than 14 days due to Discord limitations."
  const GenericPurgeErrorReply: string := "There was an error trying to delete messages."

  /** The reply of the `catch` block: the 14-day reply exactly for an `Error`
      whose message has "14 days" somewhere in it, the generic reply otherwise. */
  function PurgeErrorReply(e: Thrown): (r: string)
    ensures r == TooOldReply <==> e.ErrorWithMessage? && exists i :: OccursAt(e.message, "14 days", i)
    ensures r != TooOldReply ==> r == GenericPurgeErrorReply
  {
    if e.ErrorWithMessage? then
      ContainsIff(e.message, "14 days");
      if Contains(e.message, "14 days") then TooOldReply else GenericPurgeErrorReply
    else GenericPurgeErrorReply
  }

  /** A needle whose first character is missing from the message does not occur in it. */
  lemma AbsentFirstCharacter(m: string, needle: string)
    requires needle != [] && needle[0] !in m
    ensures forall i :: !OccursAt(m, needle, i)
  {
    forall i ensures !OccursAt(m, needle, i) {
      if 0 <= i && i + |needle| <= |m| {
        assert m[i..i + |needle|][0] == m[i];
        assert m[i] in m;
      }
    }
  }

  /** The classification on examples: "14 days" anywhere in an `Error`'s message
      gives the 14-day reply; Discord's "Missing Permissions" error and a thrown
      value that is not an `Error` get the generic reply. */
  lemma PurgeErrorClassification(a: string, b: string)
    ensures PurgeErrorReply(ErrorWithMessage(a + "14 days" + b)) == TooOldReply
    ensures PurgeErrorReply(ErrorWithMessage("Missing Permissions")) == GenericPurgeErrorReply
    ensures PurgeErrorReply(NonErrorValue) == GenericPurgeErrorReply
  {
    var m := a + "14 days" + b;
    assert m[|a|..|a| + 7] == "14 days";
    assert OccursAt(m, "14 days", |a|);
    AbsentFirstCharacter("Missing Permissions", "14 days");
  }

  /** What any run of `purge` does with deletion: after a rejection the first
      call is the rejection's reply and nothing is deleted; otherwise the first
      call is the one `bulkDelete` of exactly the amount with old messages
      filtered out, and no other deletion follows. */
  ghost predicate PurgeEffects(check: Result<nat, PurgeRejection>, actions: seq<Action>)
  {
    |actions| >= 1 &&
    match check
    case Failure(g) =>
      actions[0] == Reply(RejectionReply(g)) && forall a :: a in actions ==> !a.BulkDelete?
    case Success(n) =>
      actions[0] == BulkDelete(n, true) && forall i :: 1 <= i < |actions| ==> !actions[i].BulkDelete?
  }

  /** The value the `catch` block of `purge` receives, if the `try` block throws:
      from the rejection reply, from `bulkDelete`, or from the confirmation reply. */
  function PurgeCaught(check: Result<nat, PurgeRejection>, transport: Transport): (r: Option<Thrown>)
    ensures r.None? <==> !transport.reply.Threw? && !(check.Success? && transport.bulkDelete.BulkDeleteThrew?)
    ensures check.Success? && transport.bulkDelete.BulkDeleteThrew? ==> r == Some(transport.bulkDelete.error)
    ensures r.Some? && !(check.Success? && transport.bulkDelete.BulkDeleteThrew?) ==> r == Some(transport.reply.error)
  {
    match check
    case Failure(_) => if transport.reply.Threw? then Some(transport.reply.error) else None
    case Success(_) =>
      match transport.bulkDelete
      case BulkDeleteThrew(e) => Some(e)
      case Removed(_) => if transport.reply.Threw? then Some(transport.reply.error) else None
  }

  /** The part of `purge` after the guards: `bulkDelete(amount, true)`, then the
      confirmation with the size actually deleted, then the clean-up of that
      confirmation scheduled after 5 seconds; stops at the first call that throws. */
  method DeleteAndConfirm(amount: nat, transport: Transport) returns (actions: seq<Action>, caught: Option<Thrown>)
    ensures caught == PurgeCaught(Success(amount), transport)
    ensures match transport.bulkDelete
            case BulkDeleteThrew(_) => actions == [BulkDelete(amount, true)]
            case Removed(size) =>
              actions == [BulkDelete(amount, true), Reply(ConfirmationReply(size))] +
                         (if caught.Some? then [] else [ScheduleCleanup(5000)])
  {
    actions := [BulkDelete(amount, true)];
    caught := None;
    match transport.bulkDelete {
      case BulkDeleteThrew(e) =>
        caught := Some(e);
      case Removed(size) =>
        actions := actions + [Reply(ConfirmationReply(size))];
        if transport.reply.Threw? {
          caught := Some(transport.reply.error);
        } else {
          actions := actions + [ScheduleCleanup(5000)];
        }
    }
  }

  /** The calls of one run of `purge`, given the outcome of its guards and of its
      outbound calls: the rejection reply, or the deletion and its confirmation
      and clean-up; then the error reply if the `try` block threw. */
  ghost predicate PurgeTrace(check: Result<nat, PurgeRejection>, transport: Transport, actions: seq<Action>)
  {
    var caught := PurgeCaught(check, transport);
    var tail := if caught.Some? then [Reply(PurgeErrorReply(caught.value))] else [];
    match check
    case Failure(g) => actions == [Reply(RejectionReply(g))] + tail
    case Success(n) =>
      match transport.bulkDelete
      case BulkDeleteThrew(_) => actions == [BulkDelete(n, true)] + tail
      case Removed(size) =>
        actions == [BulkDelete(n, true), Reply(ConfirmationReply(size))] +
                   (if caught.Some? then tail else [ScheduleCleanup(5000)])
  }

  /** Every such trace deletes only as the guards allow. */
  lemma PurgeTraceEffects(check: Result<nat, PurgeRejection>, transport: Transport, actions: seq<Action>)
    requires PurgeTrace(check, transport, actions)
    ensures PurgeEffects(check, actions)
  {
  }

  /** `handlePurgeCommand`: the guard chain; a rejection is answered with its
      reply, otherwise the deletion runs. A throw anywhere in the `try` block is
      answered by one classified error reply; a throw from that reply escapes. */
  method HandlePurgeCommand(message: InboundMessage, args: seq<string>, transport: Transport)
    returns (out: Handled)
    ensures PurgeEffects(CheckPurge(message, args), out.actions)
    ensures PurgeTrace(CheckPurge(message, args), transport, out.actions)
    ensures out.escaped == if PurgeCaught(CheckPurge(message, args), transport).Some? && transport.errorReply.Threw?
                           then Some(transport.errorReply.error) else None
  {
    var check := CheckPurge(message, args);
    var actions: seq<Action>;
    var caught: Option<Thrown>;
    match check {
      case Failure(g) =>
        actions := [Reply(RejectionReply(g))];
        caught := if transport.reply.Threw? then Some(transport.reply.error) else None;
      case Success(amount) =>
        actions, caught := DeleteAndConfirm(amount, transport);
    }
    var escaped: Option<Thrown> := None;
    if caught.Some? {
      actions := actions + [Reply(PurgeErrorReply(caught.value))];
      if transport.errorReply.Threw? {
        escaped := Some(transport.errorReply.error);
      }
    }
    out := Handled(actions, escaped);
    assert PurgeTrace(check, transport, actions);
    PurgeTraceEffects(check, transport, actions);
  }

  /** `handleCommands`: a message that fails a gate, or whose command is not
      `purge`, makes no call at all; `purge` runs its handler, and whatever
      escapes from it is only logged. */
  method HandleCommands(message: InboundMessage, config: DiscordConfig, transport: Transport)
    returns (actions: seq<Action>)
    ensures ParseCommand(message, config.prefix).None? ==> actions == []
    ensures var command := ParseCommand(message, config.prefix);
            command.Some? && command.value.name != "purge" ==> actions == []
    ensures var command := ParseCommand(message, config.prefix);
            command.Some? && command.value.name == "purge" ==>
              PurgeEffects(CheckPurge(message, command.value.args), actions) &&
              PurgeTrace(CheckPurge(message, command.value.args), transport, actions)
  {
    actions := [];
    var command := ParseCommand(message, config.prefix);
    if command.Some? {
      match RouteOf(command.value.name) {
        case PurgeRoute =>
          var out := HandlePurgeCommand(message, command.value.args, transport);
          actions := out.actions;
        case NotRouted =>
      }
    }
  }
}
