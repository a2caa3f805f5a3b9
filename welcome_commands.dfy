/** The `setwelcome` and `getwelcome` command handlers over the shared, mutable
    configuration object: `setwelcome` checks the guild, then the Administrator
    permission, then that the joined and trimmed text is not empty, and only then
    assigns `customSettings.welcomeMessage`; `getwelcome` reads that field. */
module WelcomeCommands {
  import opened Wrappers
  import opened JsString
  import opened Platform
  import opened Schema

  /** The configuration object shared by the handlers, updated in place. */
  class ConfigStore {
    var config: DiscordConfig

    constructor (initial: DiscordConfig)
      ensures config == initial
    {
      config := initial;
    }
  }

  /** Why `setwelcome` refuses, in the order the checks are made. */
  datatype SetWelcomeRejection = NotInGuild | NotAdministrator | EmptyWelcome

  function SetWelcomeRejectionReply(g: SetWelcomeRejection): (r: string)
    ensures r != [] && r[0] != '\U{2705}'
  {
    match g
    case NotInGuild => "This command can only be used in a server."
    case NotAdministrator =>
      "\U{274C} You need Administrator permission " + "to change the welcome message."
    case EmptyWelcome =>
      "\U{26A0}\U{FE0F} Please provide a welcome message. " + "Usage: `.setwelcome Your welcome message here`"
  }

  /** The new text: the arguments joined with single spaces, then trimmed. */
  function NewWelcomeText(args: seq<string>): (r: string)
    ensures r == [] || (!IsWhiteSpace(r[0]) && !IsWhiteSpace(r[|r| - 1]))
    ensures exists i :: TrimmedAt(Join(args, " "), i, r)
  {
    Trim(Join(args, " "))
  }

  /** The checks of `setwelcome`, first failure first; when all pass, the text to store. */
  function CheckSetWelcome(message: InboundMessage, args: seq<string>): (r: Result<string, SetWelcomeRejection>)
    ensures r == Failure(NotInGuild) <==> !message.inGuild
    ensures r == Failure(NotAdministrator) <==> message.inGuild && !message.memberIsAdministrator
    ensures r == Failure(EmptyWelcome) <==>
              message.inGuild && message.memberIsAdministrator && NewWelcomeText(args) == ""
    ensures r.Success? ==> r.value == NewWelcomeText(args) && r.value != "" &&
                           !IsWhiteSpace(r.value[0]) && !IsWhiteSpace(r.value[|r.value| - 1])
  {
    if !message.inGuild then Failure(NotInGuild)
    else if !message.memberIsAdministrator then Failure(NotAdministrator)
    else
      var text := NewWelcomeText(args);
      if text == "" then Failure(EmptyWelcome) else Success(text)
  }

  /** The configuration after `setwelcome`: nothing but `customSettings.welcomeMessage`
      changes, and that only when every check passes, to the joined and trimmed text. */
  function ApplySetWelcome(config: DiscordConfig, message: InboundMessage, args: seq<string>): (c: DiscordConfig)
    ensures c.token == config.token && c.clientId == config.clientId
    ensures c.prefix == config.prefix && c.welcomeMessage == config.welcomeMessage
    ensures CheckSetWelcome(message, args).Failure? ==> c == config
    ensures CheckSetWelcome(message, args).Success? ==>
              c.customSettings.welcomeMessage == NewWelcomeText(args) != ""
  {
    match CheckSetWelcome(message, args)
    case Failure(_) => config
    case Success(text) => config.(customSettings := CustomSettings(text))
  }

  /** Repeating the same `setwelcome` leaves the configuration as one call left it. */
  lemma SetWelcomeIdempotent(config: DiscordConfig, message: InboundMessage, args: seq<string>)
    ensures var once := ApplySetWelcome(config, message, args);
            ApplySetWelcome(once, message, args) == once
  {
  }

  /** Words without white space are stored exactly as typed, joined by single
      spaces: `.setwelcome Hello!` stores "Hello!". */
  lemma SetWelcomeOfWords(args: seq<string>)
    requires |args| >= 1
    requires forall i :: 0 <= i < |args| ==> IsWord(args[i])
    ensures NewWelcomeText(args) == Join(args, " ")
  {
    JoinOfWordsTrimmed(args);
  }

  /** Arguments that are all white space, or none at all, store nothing: the
      administrator gets the usage reply. */
  lemma SetWelcomeOfNothing(message: InboundMessage, args: seq<string>)
    requires message.inGuild && message.memberIsAdministrator
    requires AllWhiteSpace(Join(args, " "))
    ensures CheckSetWelcome(message, args) == Failure(EmptyWelcome)
  {
    var line := Join(args, " ");
    var r := NewWelcomeText(args);
    var i :| TrimmedAt(line, i, r);
  }

  /** `caption: "text"`, the form of both replies that show a welcome message. */
  function Quoted(caption: string, text: string): string
  {
    caption + ": \"" + text + "\""
  }

  /** The text between the quotes of a reply of the form `caption: "..."`. */
  function Unquote(caption: string, reply: string): (r: Option<string>)
    ensures r.Some? ==> Quoted(caption, r.value) == reply
  {
    var head := caption + ": \"";
    if |reply| >= |head| + 1 && reply[..|head|] == head && reply[|reply| - 1] == '"'
    then
      var text := reply[|head|..|reply| - 1];
      assert reply == head + text + "\"";
      Some(text)
    else None
  }

  /** A reply that does not open with the caption's first character is not quoted under it. */
  lemma UnquoteOther(caption: string, reply: string)
    requires caption != [] && reply != [] && reply[0] != caption[0]
    ensures Unquote(caption, reply) == None
  {
    var head := caption + ": \"";
    assert head[0] == caption[0];
    if |reply| >= |head| {
      assert reply[..|head|][0] == reply[0];
    }
  }

  /** The replies quote exactly the text: it can be read back from them. */
  lemma UnquoteQuoted(caption: string, text: string)
    ensures Unquote(caption, Quoted(caption, text)) == Some(text)
  {
    var head := caption + ": \"";
    var reply := Quoted(caption, text);
    assert reply == head + text + "\"";
    assert reply[..|head|] == head;
    assert reply[|head|..|reply| - 1] == text;
  }

  const UpdatedCaption: string := "\U{2705} Welcome message updated to"
  const CurrentCaption: string := "\U{1F4E2} Current welcome message"
  const SetWelcomeErrorReply: string := "\U{274C} There was an error updating the welcome message."
  const GetWelcomeErrorReply: string := "\U{274C} There was an error getting the welcome message."

  /** The first reply of `setwelcome`: the rejection, or the confirmation quoting the stored text. */
  function SetWelcomeReply(check: Result<string, SetWelcomeRejection>): (r: string)
    ensures check.Success? ==> Unquote(UpdatedCaption, r) == Some(check.value)
    ensures check.Failure? ==> Unquote(UpdatedCaption, r) == None
  {
    match check
    case Failure(g) =>
      var t := SetWelcomeRejectionReply(g);
      assert UpdatedCaption[0] == '\U{2705}';
      UnquoteOther(UpdatedCaption, t);
      t
    case Success(text) => UnquoteQuoted(UpdatedCaption, text); Quoted(UpdatedCaption, text)
  }

  /** `handleSetWelcomeCommand`: the checks, the assignment of the custom welcome
      message, the confirmation. A reply that throws is answered with the error
      reply; the assignment made before the confirmation stays. */
  method HandleSetWelcomeCommand(message: InboundMessage, args: seq<string>, store: ConfigStore, transport: Transport)
    returns (out: Handled)
    modifies store
    ensures store.config == ApplySetWelcome(old(store.config), message, args)
    ensures out.actions == [Reply(SetWelcomeReply(CheckSetWelcome(message, args)))] +
                           (if transport.reply.Threw? then [Reply(SetWelcomeErrorReply)] else [])
    ensures out.escaped == if transport.reply.Threw? && transport.errorReply.Threw?
                           then Some(transport.errorReply.error) else None
  {
    var check := CheckSetWelcome(message, args);
    if check.Success? {
      store.config := store.config.(customSettings := CustomSettings(check.value));
    }
    out := Handled([Reply(SetWelcomeReply(check))], None);
    if transport.reply.Threw? {
      out := out.(actions := out.actions + [Reply(SetWelcomeErrorReply)]);
      if transport.errorReply.Threw? {
        out := out.(escaped := Some(transport.errorReply.error));
      }
    }
  }

  /** `handleGetWelcomeCommand`: no permission needed; reports
      `customSettings.welcomeMessage` (not the top-level default) and changes nothing. */
  method HandleGetWelcomeCommand(store: ConfigStore, transport: Transport) returns (out: Handled)
    ensures |out.actions| >= 1 && out.actions[0].Reply?
    ensures Unquote(CurrentCaption, out.actions[0].text) == Some(store.config.customSettings.welcomeMessage)
    ensures out.actions == [Reply(Quoted(CurrentCaption, store.config.customSettings.welcomeMessage))] +
                           (if transport.reply.Threw? then [Reply(GetWelcomeErrorReply)] else [])
    ensures out.escaped == if transport.reply.Threw? && transport.errorReply.Threw?
                           then Some(transport.errorReply.error) else None
  {
    var current := store.config.customSettings.welcomeMessage;
    out := Handled([Reply(Quoted(CurrentCaption, current))], None);
    UnquoteQuoted(CurrentCaption, current);
    if transport.reply.Threw? {
      out := out.(actions := out.actions + [Reply(GetWelcomeErrorReply)]);
      if transport.errorReply.Threw? {
        out := out.(escaped := Some(transport.errorReply.error));
      }
    }
  }

  /** Round trip: after `setwelcome` passes its checks, `getwelcome` reports the
      joined and trimmed arguments; after it is refused, the earlier message. */
  method SetWelcomeThenGetWelcome(message: InboundMessage, args: seq<string>, store: ConfigStore, transport: Transport)
    returns (reported: Option<string>)
    modifies store
    ensures store.config == ApplySetWelcome(old(store.config), message, args)
    ensures CheckSetWelcome(message, args).Success? ==> reported == Some(NewWelcomeText(args))
    ensures CheckSetWelcome(message, args).Failure? ==>
              reported == Some(old(store.config.customSettings.welcomeMessage))
  {
    var _ := HandleSetWelcomeCommand(message, args, store, transport);
    var got := HandleGetWelcomeCommand(store, transport);
    reported := Unquote(CurrentCaption, got.actions[0].text);
  }
}
