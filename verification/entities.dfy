/** The three entity kinds mirrored from the TeamSpeak 5 remote-app API and
    the composite keys the data handler compares them by. */
module Entities {
  import opened Wrappers

  /** A server the TeamSpeak client is connected to. Its other properties are
      kept as an opaque attribute bag, replaced wholesale on update. */
  datatype Connection = Connection(id: int, properties: map<string, string>)

  datatype ChannelProperties = ChannelProperties(name: string)

  /** A channel embeds the whole connection object it belongs to. */
  datatype Channel = Channel(id: int, connection: Connection, properties: ChannelProperties)

  datatype ClientProperties = ClientProperties(
    nickname: string,
    inputMuted: bool,
    outputMuted: bool,
    inputHardware: bool,
    outputHardware: bool,
    myteamspeakAvatar: string)

  /** A client sits in a channel, or in none (`channel` undefined). */
  datatype Client = Client(id: int, channel: Option<Channel>, talkStatus: int, properties: ClientProperties)

  /** `connection.id` */
  function ConnectionKey(c: Connection): int {
    c.id
  }

  /** `(channel.id, channel.connection.id)` */
  function ChannelKey(ch: Channel): (int, int) {
    (ch.id, ch.connection.id)
  }

  /** `client.channel?.id`: undefined for a client without a channel. */
  function ClientChannelId(cl: Client): Option<int> {
    match cl.channel
    case None => None
    case Some(ch) => Some(ch.id)
  }

  /** `client.channel?.connection.id`: undefined for a client without a channel. */
  function ClientConnectionId(cl: Client): Option<int> {
    match cl.channel
    case None => None
    case Some(ch) => Some(ch.connection.id)
  }

  /** `(client.id, client.channel?.connection.id)`; two channel-less clients
      with the same id share a key, since `undefined === undefined`. */
  function ClientKey(cl: Client): (int, Option<int>) {
    (cl.id, ClientConnectionId(cl))
  }
}
