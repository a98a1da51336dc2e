/** The constants configured at the top of bot.py. */
module Settings {

  /** Shared webhook secret (`SECRET`, a bytes literal; its bytes are ASCII). */
  const Secret: string := "supersecret"

  /** Where the streaming platform delivers notifications (`CALLBACK_URL`). */
  const CallbackUrl: string := "https://yourdomain.com/twitch/callback"

  /** The chat webhook that receives "is live" messages (`DISCORD_WEBHOOK`),
      including its trailing space. */
  const DiscordWebhook: string := "https://discord.com/api/webhooks/.../... "
}
