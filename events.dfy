/** The member-join greeter: the first cached channel that is a guild text
    channel where the bot may send messages receives the member's mention, one
    space and the effective welcome message; with no such channel nothing is
    sent. A failed send is only logged, so it changes no call. */
module Events {
  import opened Wrappers
  import opened Platform
  import opened Schema

  /** A channel of the guild's channel cache, as the greeter reads it. */
  datatype CachedChannel = CachedChannel(channelType: ChannelType, botCanSend: bool)

  predicate CanGreetIn(c: CachedChannel)
  {
    c.channelType == GuildText && c.botCanSend
  }

  /** `cache.find(...)`: the position of the first channel the greeter may use. */
  function FindGreetingChannel(cache: seq<CachedChannel>): (r: Option<nat>)
    ensures r.Some? ==> r.value < |cache| && CanGreetIn(cache[r.value]) &&
                        forall j :: 0 <= j < r.value ==> !CanGreetIn(cache[j])
    ensures r.None? ==> forall j :: 0 <= j < |cache| ==> !CanGreetIn(cache[j])
  {
    if cache == [] then None
    else if CanGreetIn(cache[0]) then Some(0)
    else match FindGreetingChannel(cache[1..])
      case None => None
      case Some(i) => Some(i + 1)
  }

  /** `customSettings.welcomeMessage || welcomeMessage`: `||` treats the empty string as absent. */
  function EffectiveWelcome(config: DiscordConfig): (r: string)
    ensures config.customSettings.welcomeMessage != "" ==> r == config.customSettings.welcomeMessage
    ensures config.customSettings.welcomeMessage == "" ==> r == config.welcomeMessage
  {
    if config.customSettings.welcomeMessage != "" then config.customSettings.welcomeMessage
    else config.welcomeMessage
  }

  /** The sent text: the mention, one space, the message. */
  function GreetingText(mention: string, welcome: string): (r: string)
    ensures |r| == |mention| + 1 + |welcome|
    ensures r[..|mention|] == mention && r[|mention|] == ' ' && r[|mention| + 1..] == welcome
  {
    mention + " " + welcome
  }

  /** `handleMemberJoin`: the calls the greeter makes for a member with the given mention. */
  function MemberJoinActions(cache: seq<CachedChannel>, config: DiscordConfig, mention: string): (r: seq<Action>)
    ensures |r| <= 1
    ensures r == [] <==> forall j :: 0 <= j < |cache| ==> !CanGreetIn(cache[j])
    ensures r != [] ==> r[0].Send? && r[0].channel < |cache| && CanGreetIn(cache[r[0].channel]) &&
                        (forall j :: 0 <= j < r[0].channel ==> !CanGreetIn(cache[j])) &&
                        r[0].text == GreetingText(mention, EffectiveWelcome(config))
  {
    match FindGreetingChannel(cache)
    case None => []
    case Some(i) => [Send(i, GreetingText(mention, EffectiveWelcome(config)))]
  }

  /** The channel chosen is the one `find` would return however the cache
      continues: appending channels never changes a choice already made. */
  lemma {:induction false} FindGreetingChannelPrefix(cache: seq<CachedChannel>, more: seq<CachedChannel>)
    requires FindGreetingChannel(cache).Some?
    ensures FindGreetingChannel(cache + more) == FindGreetingChannel(cache)
  {
    assert (cache + more)[0] == cache[0];
    if !CanGreetIn(cache[0]) {
      assert (cache + more)[1..] == cache[1..] + more;
      FindGreetingChannelPrefix(cache[1..], more);
    }
  }
}
