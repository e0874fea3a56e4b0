/** Data sources: their types, connection states and configurations. */
module Sources {
  datatype ConnectionState = Disconnected | Connecting | Initializing | Ready | Reconnecting | Disconnecting | Faulted

  datatype SourceType = SerialElm327 | Synthetic | Playback | SocketCan

  datatype Config = Config(sourceType: SourceType, settings: string)
}
