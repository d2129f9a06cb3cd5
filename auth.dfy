/** The bearer-token check every bot-facing route performs before touching
    any table. The configured key is the `DISCORD_BOT_API_KEY` environment
    variable, passed in as a parameter; `None` stands for an unset variable. */
module Auth {
  import opened Common

  const Prefix: string := "Bearer "

  /** `verifyAuth`: the `authorization` header must start with "Bearer "
      and what follows the first seven characters must equal the key.
      Its meaning: the header is exactly "Bearer " followed by the key. */
  function VerifyAuth(header: Option<string>, apiKey: Option<string>): (ok: bool)
    ensures ok <==> header.Some? && apiKey.Some? && header.value == Prefix + apiKey.value
  {
    if header.None? || header.value == [] || !(|header.value| >= 7 && header.value[..7] == Prefix) then
      false
    else
      assert header.value == header.value[..7] + header.value[7..];
      apiKey.Some? && header.value[7..] == apiKey.value
  }
}
