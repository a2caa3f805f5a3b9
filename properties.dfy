/** Properties that connect the configuration schema, the welcome commands and
    the greeter through the one configuration object they share. */
module BotProperties {
  import opened Wrappers
  import opened Platform
  import opened Schema
  import opened WelcomeCommands
  import opened Events

  /** After a `setwelcome` that passes its checks, a joining member is greeted
      with the new text, in the same channel as before. */
  lemma GreetingAfterSetWelcome(config: DiscordConfig, message: InboundMessage, args: seq<string>,
                                cache: seq<CachedChannel>, mention: string)
    requires CheckSetWelcome(message, args).Success?
    requires FindGreetingChannel(cache).Some?
    ensures MemberJoinActions(cache, ApplySetWelcome(config, message, args), mention) ==
            [Send(FindGreetingChannel(cache).value, GreetingText(mention, NewWelcomeText(args)))]
  {
  }

  /** A configuration validated without `customSettings` greets with the literal
      default, whatever top-level `welcomeMessage` it was given. */
  lemma GreetingWithDefaults(raw: RawConfig)
    requires ValidateConfig(raw).Success? && raw.customSettings.None?
    ensures EffectiveWelcome(ValidateConfig(raw).value) == "Welcome to immys server"
  {
  }

  /** An empty custom welcome message is treated as absent: the greeting falls
      back to the top-level `welcomeMessage`. */
  lemma GreetingWithEmptyCustomMessage(raw: RawConfig)
    requires ValidateConfig(raw).Success?
    requires raw.customSettings == Some(RawCustomSettings(Some("")))
    ensures EffectiveWelcome(ValidateConfig(raw).value) == ValidateConfig(raw).value.welcomeMessage
  {
  }
}
