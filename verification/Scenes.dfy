/** The uses a proxy core is configured for. */
module Scenes {
  datatype Scene = Global | Dev | Telegram
}
