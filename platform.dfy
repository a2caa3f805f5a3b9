/** What the handlers see of discord.js and of the JavaScript runtime: the
    kind of a channel, the values a failed call throws, how each outbound call
    turns out, and the outbound calls themselves, recorded as actions. */
module Platform {
  import opened Wrappers

  datatype ChannelType = GuildText | OtherChannelType

  /** An inbound message as the handlers read it: whether its author is a bot,
      its content, whether it was sent in a guild, the type of its channel,
      the author's guild permissions (false when there is no member) and the
      bot's permission in the channel. */
  datatype InboundMessage = InboundMessage(
    authorIsBot: bool,
    content: string,
    inGuild: bool,
    channelType: ChannelType,
    memberCanManageMessages: bool,
    memberIsAdministrator: bool,
    botCanManageMessages: bool)

  /** A thrown value: an `Error` instance with its `message`, or anything else. */
  datatype Thrown = ErrorWithMessage(message: string) | NonErrorValue

  /** How an awaited `reply` or `send` turns out. */
  datatype Delivery = Delivered | Threw(error: Thrown)

  /** How `channel.bulkDelete` turns out: the size of the collection of deleted
      messages it resolves to, or what it throws. */
  datatype BulkDeleteOutcome = Removed(size: nat) | BulkDeleteThrew(error: Thrown)

  /** The outcomes of the outbound calls of one handler run. Each handler's `try`
      block makes at most one reply (`reply`), its `catch` block one more
      (`errorReply`). */
  datatype Transport = Transport(reply: Delivery, errorReply: Delivery, bulkDelete: BulkDeleteOutcome)

  /** An outbound call, recorded in the order it is made (whether or not it then throws). */
  datatype Action =
    | Reply(text: string)
    | BulkDelete(amount: nat, filterOld: bool)
    | ScheduleCleanup(delayMs: nat)
    | Send(channel: nat, text: string)

  /** The calls a handler made, and what escaped from it uncaught. */
  datatype Handled = Handled(actions: seq<Action>, escaped: Option<Thrown>)
}
