/** The `discordConfig` object schema: `token` and `clientId` are required
    non-empty strings, `welcomeMessage`, `prefix` and `customSettings` take
    literal defaults when absent. Validation either yields the configuration or
    the list of issues, one per failing field, in the order of the fields. */
module Schema {
  import opened Wrappers

  const DefaultWelcome: string := "Welcome to immys server"
  const DefaultPrefix: string := "."

  datatype CustomSettings = CustomSettings(welcomeMessage: string)

  /** The validated configuration (`DiscordConfig`). */
  datatype DiscordConfig = DiscordConfig(
    token: string,
    clientId: string,
    welcomeMessage: string,
    prefix: string,
    customSettings: CustomSettings)

  /** The input before validation; `None` is an absent (undefined) field. */
  datatype RawCustomSettings = RawCustomSettings(welcomeMessage: Option<string>)

  datatype RawConfig = RawConfig(
    token: Option<string>,
    clientId: Option<string>,
    welcomeMessage: Option<string>,
    prefix: Option<string>,
    customSettings: Option<RawCustomSettings>)

  /** A validation issue: the path of the field and its message. */
  datatype Issue = Issue(path: seq<string>, message: string)

  /** The issues of one required `z.string().min(1, message)` field. */
  function RequiredStringIssues(field: string, value: Option<string>, message: string): (r: seq<Issue>)
    ensures r == [] <==> value.Some? && |value.value| >= 1
    ensures |r| <= 1
    ensures forall i :: i in r ==> i.path == [field]
  {
    match value
    case None => [Issue([field], "Required")]
    case Some(s) => if |s| >= 1 then [] else [Issue([field], message)]
  }

  /** `z.string().default(d)` on a field. */
  function WithDefault(value: Option<string>, default: string): (r: string)
    ensures value.Some? ==> r == value.value
    ensures value.None? ==> r == default
  {
    match value
    case None => default
    case Some(s) => s
  }

  /** The nested `customSettings` object, itself defaulted as a whole. */
  function ValidateCustomSettings(raw: Option<RawCustomSettings>): (r: CustomSettings)
    ensures r.welcomeMessage == if raw.Some? && raw.value.welcomeMessage.Some?
                                then raw.value.welcomeMessage.value else DefaultWelcome
  {
    match raw
    case None => CustomSettings(DefaultWelcome)
    case Some(c) => CustomSettings(WithDefault(c.welcomeMessage, DefaultWelcome))
  }

  /** `discordConfig.safeParse(raw)` */
  function ValidateConfig(raw: RawConfig): (r: Result<DiscordConfig, seq<Issue>>)
    ensures r.Success? <==> raw.token.Some? && raw.token.value != "" &&
                            raw.clientId.Some? && raw.clientId.value != ""
    ensures r.Failure? ==> r.error != [] && |r.error| <= 2 &&
                           (r.error[0].path == ["token"] <==> !(raw.token.Some? && raw.token.value != ""))
  {
    var issues := RequiredStringIssues("token", raw.token, "Discord bot token is required") +
                  RequiredStringIssues("clientId", raw.clientId, "Discord client ID is required");
    if issues != [] then Failure(issues)
    else Success(DiscordConfig(
      raw.token.value,
      raw.clientId.value,
      WithDefault(raw.welcomeMessage, DefaultWelcome),
      WithDefault(raw.prefix, DefaultPrefix),
      ValidateCustomSettings(raw.customSettings)))
  }

  /** The raw input that spells every field of a configuration out. */
  function Unparsed(c: DiscordConfig): RawConfig
  {
    RawConfig(Some(c.token), Some(c.clientId), Some(c.welcomeMessage), Some(c.prefix),
              Some(RawCustomSettings(Some(c.customSettings.welcomeMessage))))
  }

  /** Validation keeps every supplied string verbatim: a configuration whose
      required fields are non-empty comes back unchanged, including empty
      `welcomeMessage`, `prefix` or custom message. */
  lemma ValidateUnparsed(c: DiscordConfig)
    requires c.token != "" && c.clientId != ""
    ensures ValidateConfig(Unparsed(c)) == Success(c)
  {
  }

  /** Defaults fill exactly the absent fields, and the custom welcome message
      defaults to the literal, whatever top-level `welcomeMessage` is supplied. */
  lemma ValidateDefaults(raw: RawConfig)
    requires ValidateConfig(raw).Success?
    ensures var c := ValidateConfig(raw).value;
            c.token == raw.token.value && c.clientId == raw.clientId.value &&
            (raw.welcomeMessage.None? ==> c.welcomeMessage == "Welcome to immys server") &&
            (raw.welcomeMessage.Some? ==> c.welcomeMessage == raw.welcomeMessage.value) &&
            (raw.prefix.None? ==> c.prefix == ".") &&
            (raw.prefix.Some? ==> c.prefix == raw.prefix.value) &&
            (raw.customSettings.None? ==> c.customSettings.welcomeMessage == "Welcome to immys server") &&
            (raw.customSettings.Some? && raw.customSettings.value.welcomeMessage.None? ==>
               c.customSettings.welcomeMessage == "Welcome to immys server") &&
            (raw.customSettings.Some? && raw.customSettings.value.welcomeMessage.Some? ==>
               c.customSettings.welcomeMessage == raw.customSettings.value.welcomeMessage.value)
  {
  }

  /** Both required fields are reported when both are absent, token first. */
  lemma ValidateBothAbsent(raw: RawConfig)
    requires raw.token.None? && raw.clientId.None?
    ensures ValidateConfig(raw) == Failure([Issue(["token"], "Required"), Issue(["clientId"], "Required")])
  {
    assert RequiredStringIssues("token", raw.token, "Discord bot token is required") == [Issue(["token"], "Required")];
    assert RequiredStringIssues("clientId", raw.clientId, "Discord client ID is required") == [Issue(["clientId"], "Required")];
    assert [Issue(["token"], "Required")] + [Issue(["clientId"], "Required")] ==
           [Issue(["token"], "Required"), Issue(["clientId"], "Required")];
  }

  /** An empty token is reported with the token's own message. */
  lemma ValidateEmptyToken(raw: RawConfig)
    requires raw.token == Some("") && raw.clientId.Some? && raw.clientId.value != ""
    ensures ValidateConfig(raw) == Failure([Issue(["token"], "Discord bot token is required")])
  {
    var t := RequiredStringIssues("token", raw.token, "Discord bot token is required");
    assert t == [Issue(["token"], "Discord bot token is required")];
    assert t + [] == t;
  }

  /** An empty client id is reported with the client id's own message. */
  lemma ValidateEmptyClientId(raw: RawConfig)
    requires raw.token.Some? && raw.token.value != "" && raw.clientId == Some("")
    ensures ValidateConfig(raw) == Failure([Issue(["clientId"], "Discord client ID is required")])
  {
    var c := RequiredStringIssues("clientId", raw.clientId, "Discord client ID is required");
    assert c == [Issue(["clientId"], "Discord client ID is required")];
    assert [] + c == c;
  }
}
