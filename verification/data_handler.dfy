/** The TS5 data handler: local lists of connections, channels and clients,
    kept independent of the UI state. Every React state setter call is
    recorded as one `Notification` appended to `log`, carrying the full-list
    snapshot the setter received. */
module DataHandler {
  import opened Wrappers
  import opened Lists
  import opened Entities

  datatype Notification =
    | ConnectionsSet(connections: seq<Connection>)
    | ChannelsSet(channels: seq<Channel>)
    | ClientsSet(clients: seq<Client>)

  datatype Handler = Handler(
    connections: seq<Connection>,
    channels: seq<Channel>,
    clients: seq<Client>,
    log: seq<Notification>)

  /** No list holds two entities with the same composite key. */
  predicate Valid(h: Handler) {
    && Unique(h.connections, ConnectionKey)
    && Unique(h.channels, ChannelKey)
    && Unique(h.clients, ClientKey)
  }

  /** `a` and `b` hold the same three lists (their logs may differ). */
  predicate SameLists(a: Handler, b: Handler) {
    a.connections == b.connections && a.channels == b.channels && a.clients == b.clients
  }

  /** The constructor: empty lists, and no setter has been called yet. */
  function New(): (h: Handler)
    ensures Valid(h)
    ensures |h.connections| == |h.channels| == |h.clients| == 0
    ensures h.log == []
  {
    Handler([], [], [], [])
  }

  // ---------------------------------------------------------------------
  // State notifications (`update*State`)
  // ---------------------------------------------------------------------

  function NotifyConnections(h: Handler): (r: Handler)
    ensures SameLists(r, h)
    ensures r.log == h.log + [ConnectionsSet(h.connections)]
  {
    h.(log := h.log + [ConnectionsSet(h.connections)])
  }

  function NotifyChannels(h: Handler): (r: Handler)
    ensures SameLists(r, h)
    ensures r.log == h.log + [ChannelsSet(h.channels)]
  {
    h.(log := h.log + [ChannelsSet(h.channels)])
  }

  function NotifyClients(h: Handler): (r: Handler)
    ensures SameLists(r, h)
    ensures r.log == h.log + [ClientsSet(h.clients)]
  {
    h.(log := h.log + [ClientsSet(h.clients)])
  }

  // ---------------------------------------------------------------------
  // Lookups (`get*ById`)
  // ---------------------------------------------------------------------

  function GetConnectionById(h: Handler, id: int): (r: Option<Connection>)
    ensures r.None? <==> forall c :: c in h.connections ==> c.id != id
    ensures r.Some? ==> exists i :: IsFirstMatch(h.connections, ConnectionKey, id, i) && h.connections[i] == r.value
  {
    Find(h.connections, ConnectionKey, id)
  }

  function GetChannelById(h: Handler, id: int, connectionId: int): (r: Option<Channel>)
    ensures r.None? <==> forall ch :: ch in h.channels ==> ch.id != id || ch.connection.id != connectionId
    ensures r.Some? ==> exists i :: IsFirstMatch(h.channels, ChannelKey, (id, connectionId), i) && h.channels[i] == r.value
  {
    Find(h.channels, ChannelKey, (id, connectionId))
  }

  /** Compares `client.channel?.connection.id` with a number, so a client
      without a channel is never found. */
  function GetClientById(h: Handler, id: int, connectionId: int): (r: Option<Client>)
    ensures r.None? <==> forall cl :: cl in h.clients ==> cl.id != id || ClientConnectionId(cl) != Some(connectionId)
    ensures r.Some? ==> r.value.channel.Some? && r.value.channel.value.connection.id == connectionId
    ensures r.Some? ==> exists i :: IsFirstMatch(h.clients, ClientKey, (id, Some(connectionId)), i) && h.clients[i] == r.value
  {
    Find(h.clients, ClientKey, (id, Some(connectionId)))
  }

  // ---------------------------------------------------------------------
  // clearAll
  // ---------------------------------------------------------------------

  function ClearAll(h: Handler): (r: Handler)
    ensures r.connections == [] && r.channels == [] && r.clients == []
    ensures r.log == h.log + [ConnectionsSet([]), ChannelsSet([]), ClientsSet([])]
    ensures Valid(r)
  {
    NotifyClients(NotifyChannels(NotifyConnections(Handler([], [], [], h.log))))
  }

  // ---------------------------------------------------------------------
  // add*: append when the key is absent, otherwise change nothing
  // ---------------------------------------------------------------------

  function AddConnection(h: Handler, c: Connection): (r: Handler)
    ensures KeyIn(h.connections, ConnectionKey, c.id) ==> r == h
    ensures !KeyIn(h.connections, ConnectionKey, c.id) ==>
      && r.connections == h.connections + [c]
      && r.channels == h.channels && r.clients == h.clients
      && r.log == h.log + [ConnectionsSet(r.connections)]
      && GetConnectionById(r, c.id) == Some(c)
    ensures Valid(h) ==> Valid(r)
  {
    match FirstIndex(h.connections, ConnectionKey, c.id)
    case Some(_) => h
    case None =>
      FindAppended(h.connections, ConnectionKey, c);
      NotifyConnections(h.(connections := h.connections + [c]))
  }

  function AddChannel(h: Handler, ch: Channel): (r: Handler)
    ensures KeyIn(h.channels, ChannelKey, ChannelKey(ch)) ==> r == h
    ensures !KeyIn(h.channels, ChannelKey, ChannelKey(ch)) ==>
      && r.channels == h.channels + [ch]
      && r.connections == h.connections && r.clients == h.clients
      && r.log == h.log + [ChannelsSet(r.channels)]
      && GetChannelById(r, ch.id, ch.connection.id) == Some(ch)
    ensures Valid(h) ==> Valid(r)
  {
    match FirstIndex(h.channels, ChannelKey, ChannelKey(ch))
    case Some(_) => h
    case None =>
      FindAppended(h.channels, ChannelKey, ch);
      NotifyChannels(h.(channels := h.channels + [ch]))
  }

  function AddClient(h: Handler, cl: Client): (r: Handler)
    ensures KeyIn(h.clients, ClientKey, ClientKey(cl)) ==> r == h
    ensures !KeyIn(h.clients, ClientKey, ClientKey(cl)) ==>
      && r.clients == h.clients + [cl]
      && r.connections == h.connections && r.channels == h.channels
      && r.log == h.log + [ClientsSet(r.clients)]
    ensures !KeyIn(h.clients, ClientKey, ClientKey(cl)) && cl.channel.Some? ==>
      GetClientById(r, cl.id, cl.channel.value.connection.id) == Some(cl)
    ensures Valid(h) ==> Valid(r)
  {
    match FirstIndex(h.clients, ClientKey, ClientKey(cl))
    case Some(_) => h
    case None =>
      FindAppended(h.clients, ClientKey, cl);
      NotifyClients(h.(clients := h.clients + [cl]))
  }

  // ---------------------------------------------------------------------
  // update*: replace the first match wholesale, or change nothing
  // ---------------------------------------------------------------------

  function UpdateConnection(h: Handler, c: Connection): (r: Handler)
    ensures !KeyIn(h.connections, ConnectionKey, c.id) ==> r == h
    ensures KeyIn(h.connections, ConnectionKey, c.id) ==>
      && (exists i :: IsFirstMatch(h.connections, ConnectionKey, c.id, i) && r.connections == h.connections[i := c])
      && r.channels == h.channels && r.clients == h.clients
      && r.log == h.log + [ConnectionsSet(r.connections)]
      && GetConnectionById(r, c.id) == Some(c)
    ensures |r.connections| == |h.connections|
    ensures Valid(h) ==> Valid(r)
  {
    match FirstIndex(h.connections, ConnectionKey, c.id)
    case None => h
    case Some(i) =>
      FindReplaced(h.connections, ConnectionKey, c.id, i, c);
      NotifyConnections(h.(connections := h.connections[i := c]))
  }

  function UpdateChannel(h: Handler, ch: Channel): (r: Handler)
    ensures !KeyIn(h.channels, ChannelKey, ChannelKey(ch)) ==> r == h
    ensures KeyIn(h.channels, ChannelKey, ChannelKey(ch)) ==>
      && (exists i :: IsFirstMatch(h.channels, ChannelKey, ChannelKey(ch), i) && r.channels == h.channels[i := ch])
      && r.connections == h.connections && r.clients == h.clients
      && r.log == h.log + [ChannelsSet(r.channels)]
      && GetChannelById(r, ch.id, ch.connection.id) == Some(ch)
    ensures |r.channels| == |h.channels|
    ensures Valid(h) ==> Valid(r)
  {
    match FirstIndex(h.channels, ChannelKey, ChannelKey(ch))
    case None => h
    case Some(i) =>
      FindReplaced(h.channels, ChannelKey, ChannelKey(ch), i, ch);
      NotifyChannels(h.(channels := h.channels[i := ch]))
  }

  function UpdateClient(h: Handler, cl: Client): (r: Handler)
    ensures !KeyIn(h.clients, ClientKey, ClientKey(cl)) ==> r == h
    ensures KeyIn(h.clients, ClientKey, ClientKey(cl)) ==>
      && (exists i :: IsFirstMatch(h.clients, ClientKey, ClientKey(cl), i) && r.clients == h.clients[i := cl])
      && r.connections == h.connections && r.channels == h.channels
      && r.log == h.log + [ClientsSet(r.clients)]
    ensures KeyIn(h.clients, ClientKey, ClientKey(cl)) && cl.channel.Some? ==>
      GetClientById(r, cl.id, cl.channel.value.connection.id) == Some(cl)
    ensures |r.clients| == |h.clients|
    ensures Valid(h) ==> Valid(r)
  {
    match FirstIndex(h.clients, ClientKey, ClientKey(cl))
    case None => h
    case Some(i) =>
      FindReplaced(h.clients, ClientKey, ClientKey(cl), i, cl);
      NotifyClients(h.(clients := h.clients[i := cl]))
  }

  // ---------------------------------------------------------------------
  // remove*: delete the first match and cascade, or change nothing
  // ---------------------------------------------------------------------

  /** The channels that do not belong to connection `connectionId`, in order. */
  function ChannelsOutside(channels: seq<Channel>, connectionId: int): (r: seq<Channel>)
    ensures forall ch :: ch in r <==> ch in channels && ch.connection.id != connectionId
    ensures IsSubsequence(r, channels)
    ensures Unique(channels, ChannelKey) ==> Unique(r, ChannelKey)
  {
    UniqueFilter(channels, ChannelKey, (ch: Channel) => ch.connection.id != connectionId);
    Filter(channels, (ch: Channel) => ch.connection.id != connectionId)
  }

  /** The clients whose channel is not on connection `connectionId`, channel-less ones included, in order. */
  function ClientsOutside(clients: seq<Client>, connectionId: int): (r: seq<Client>)
    ensures forall cl :: cl in r <==> cl in clients && ClientConnectionId(cl) != Some(connectionId)
    ensures IsSubsequence(r, clients)
    ensures Unique(clients, ClientKey) ==> Unique(r, ClientKey)
  {
    UniqueFilter(clients, ClientKey, (cl: Client) => ClientConnectionId(cl) != Some(connectionId));
    Filter(clients, (cl: Client) => ClientConnectionId(cl) != Some(connectionId))
  }

  /** Deletes the connection, every channel of that connection and every
      client whose channel belongs to it; notifies channels, clients, then
      connections. */
  function RemoveConnection(h: Handler, c: Connection): (r: Handler)
    ensures !KeyIn(h.connections, ConnectionKey, c.id) ==> r == h
    ensures KeyIn(h.connections, ConnectionKey, c.id) ==>
      && (exists i :: IsFirstMatch(h.connections, ConnectionKey, c.id, i) && r.connections == RemoveAt(h.connections, i))
      && (forall ch :: ch in r.channels <==> ch in h.channels && ch.connection.id != c.id)
      && (forall cl :: cl in r.clients <==> cl in h.clients && ClientConnectionId(cl) != Some(c.id))
      && IsSubsequence(r.channels, h.channels)
      && IsSubsequence(r.clients, h.clients)
      && r.log == h.log + [ChannelsSet(r.channels), ClientsSet(r.clients), ConnectionsSet(r.connections)]
    ensures Valid(h) ==> Valid(r)
  {
    match FirstIndex(h.connections, ConnectionKey, c.id)
    case None => h
    case Some(i) =>
      UniqueRemoveAt(h.connections, ConnectionKey, i);
      var h1 := Handler(RemoveAt(h.connections, i), ChannelsOutside(h.channels, c.id), ClientsOutside(h.clients, c.id), h.log);
      NotifyConnections(NotifyClients(NotifyChannels(h1)))
  }

  /** The clients whose channel id differs from `channelId`, on any connection, channel-less ones included, in order. */
  function ClientsOutsideChannel(clients: seq<Client>, channelId: int): (r: seq<Client>)
    ensures forall cl :: cl in r <==> cl in clients && ClientChannelId(cl) != Some(channelId)
    ensures IsSubsequence(r, clients)
    ensures Unique(clients, ClientKey) ==> Unique(r, ClientKey)
  {
    UniqueFilter(clients, ClientKey, (cl: Client) => ClientChannelId(cl) != Some(channelId));
    Filter(clients, (cl: Client) => ClientChannelId(cl) != Some(channelId))
  }

  /** The client sits in the channel with key `key` (channel id, connection id). */
  predicate InChannel(cl: Client, key: (int, int)) {
    cl.channel.Some? && ChannelKey(cl.channel.value) == key
  }

  /** The clients that are not in the channel with key `key`, channel-less ones included, in order. */
  function ClientsOutsideChannelKey(clients: seq<Client>, key: (int, int)): (r: seq<Client>)
    ensures forall cl :: cl in r <==> cl in clients && !InChannel(cl, key)
    ensures IsSubsequence(r, clients)
    ensures Unique(clients, ClientKey) ==> Unique(r, ClientKey)
  {
    UniqueFilter(clients, ClientKey, (cl: Client) => !InChannel(cl, key));
    Filter(clients, (cl: Client) => !InChannel(cl, key))
  }

  /** The evidently intended `removeChannel`: the cascade deletes only the
      clients of the removed channel itself, matched on the same composite
      key the lookup uses. */
  function IntendedRemoveChannel(h: Handler, ch: Channel): (r: Handler)
    ensures !KeyIn(h.channels, ChannelKey, ChannelKey(ch)) ==> r == h
    ensures KeyIn(h.channels, ChannelKey, ChannelKey(ch)) ==>
      && (exists i :: IsFirstMatch(h.channels, ChannelKey, ChannelKey(ch), i) && r.channels == RemoveAt(h.channels, i))
      && r.connections == h.connections
      && (forall cl :: cl in r.clients <==> cl in h.clients && !InChannel(cl, ChannelKey(ch)))
      && IsSubsequence(r.clients, h.clients)
      && r.log == h.log + [ClientsSet(r.clients), ChannelsSet(r.channels)]
    ensures forall cl :: cl in h.clients && ClientConnectionId(cl) != Some(ch.connection.id) ==> cl in r.clients
    ensures Valid(h) ==> Valid(r)
  {
    match FirstIndex(h.channels, ChannelKey, ChannelKey(ch))
    case None => h
    case Some(i) =>
      UniqueRemoveAt(h.channels, ChannelKey, i);
      var h1 := h.(channels := RemoveAt(h.channels, i), clients := ClientsOutsideChannelKey(h.clients, ChannelKey(ch)));
      NotifyChannels(NotifyClients(h1))
  }

  /** Deletes the channel and every client whose channel has the same id, on
      any connection; notifies clients, then channels. */
  function RemoveChannel(h: Handler, ch: Channel): (r: Handler)
    ensures !KeyIn(h.channels, ChannelKey, ChannelKey(ch)) ==> r == h
    ensures KeyIn(h.channels, ChannelKey, ChannelKey(ch)) ==>
      && (exists i :: IsFirstMatch(h.channels, ChannelKey, ChannelKey(ch), i) && r.channels == RemoveAt(h.channels, i))
      && r.connections == h.connections
      && (forall cl :: cl in r.clients <==> cl in h.clients && ClientChannelId(cl) != Some(ch.id))
      && IsSubsequence(r.clients, h.clients)
      && r.log == h.log + [ClientsSet(r.clients), ChannelsSet(r.channels)]
    ensures Valid(h) ==> Valid(r)
  {
    match FirstIndex(h.channels, ChannelKey, ChannelKey(ch))
    case None => h
    case Some(i) =>
      UniqueRemoveAt(h.channels, ChannelKey, i);
      var h1 := h.(channels := RemoveAt(h.channels, i), clients := ClientsOutsideChannel(h.clients, ch.id));
      NotifyChannels(NotifyClients(h1))
  }

  function RemoveClient(h: Handler, cl: Client): (r: Handler)
    ensures !KeyIn(h.clients, ClientKey, ClientKey(cl)) ==> r == h
    ensures KeyIn(h.clients, ClientKey, ClientKey(cl)) ==>
      && (exists i :: IsFirstMatch(h.clients, ClientKey, ClientKey(cl), i) && r.clients == RemoveAt(h.clients, i))
      && r.connections == h.connections && r.channels == h.channels
      && r.log == h.log + [ClientsSet(r.clients)]
    ensures Valid(h) ==> Valid(r)
  {
    match FirstIndex(h.clients, ClientKey, ClientKey(cl))
    case None => h
    case Some(i) =>
      UniqueRemoveAt(h.clients, ClientKey, i);
      NotifyClients(h.(clients := RemoveAt(h.clients, i)))
  }

  // ---------------------------------------------------------------------
  // Sequences of calls
  // ---------------------------------------------------------------------

  /** One call of the handler's public mutation surface. */
  datatype Call =
    | ClearAllCall
    | AddConnectionCall(connection: Connection)
    | AddChannelCall(channel: Channel)
    | AddClientCall(client: Client)
    | UpdateConnectionCall(connection: Connection)
    | UpdateChannelCall(channel: Channel)
    | UpdateClientCall(client: Client)
    | RemoveConnectionCall(connection: Connection)
    | RemoveChannelCall(channel: Channel)
    | RemoveClientCall(client: Client)

  function Apply(h: Handler, call: Call): (r: Handler)
    ensures Valid(h) ==> Valid(r)
    ensures |h.log| <= |r.log| && r.log[..|h.log|] == h.log
  {
    match call
    case ClearAllCall => ClearAll(h)
    case AddConnectionCall(c) => AddConnection(h, c)
    case AddChannelCall(ch) => AddChannel(h, ch)
    case AddClientCall(cl) => AddClient(h, cl)
    case UpdateConnectionCall(c) => UpdateConnection(h, c)
    case UpdateChannelCall(ch) => UpdateChannel(h, ch)
    case UpdateClientCall(cl) => UpdateClient(h, cl)
    case RemoveConnectionCall(c) => RemoveConnection(h, c)
    case RemoveChannelCall(ch) => RemoveChannel(h, ch)
    case RemoveClientCall(cl) => RemoveClient(h, cl)
  }

  function Run(h: Handler, calls: seq<Call>): Handler
    decreases |calls|
  {
    if |calls| == 0 then h else Run(Apply(h, calls[0]), calls[1..])
  }

  /** Key uniqueness, once it holds, survives any sequence of calls. */
  lemma {:induction false} RunKeepsKeysUnique(h: Handler, calls: seq<Call>)
    requires Valid(h)
    ensures Valid(Run(h, calls))
    decreases |calls|
  {
    if |calls| > 0 {
      RunKeepsKeysUnique(Apply(h, calls[0]), calls[1..]);
    }
  }

  /** Notifications are only ever appended: a later log extends an earlier one. */
  lemma {:induction false} RunExtendsLog(h: Handler, calls: seq<Call>)
    ensures |h.log| <= |Run(h, calls).log| && Run(h, calls).log[..|h.log|] == h.log
    decreases |calls|
  {
    if |calls| > 0 {
      var h1 := Apply(h, calls[0]);
      RunExtendsLog(h1, calls[1..]);
      var r := Run(h1, calls[1..]);
      assert r.log[..|h.log|] == r.log[..|h1.log|][..|h.log|];
    }
  }

  lemma FreshRunKeepsKeysUnique(calls: seq<Call>)
    ensures Valid(Run(New(), calls))
  {
    RunKeepsKeysUnique(New(), calls);
  }

  /** A second clearAll leaves the lists as the first left them and still notifies all three setters. */
  lemma ClearAllTwice(h: Handler)
    ensures SameLists(ClearAll(ClearAll(h)), ClearAll(h))
    ensures ClearAll(ClearAll(h)).log == ClearAll(h).log + [ConnectionsSet([]), ChannelsSet([]), ClientsSet([])]
  {
  }

  /** After removing a connection nothing of it can be looked up, while
      channel-less clients and other connections' entities stay. */
  lemma RemoveConnectionCascade(h: Handler, c: Connection)
    requires KeyIn(h.connections, ConnectionKey, c.id)
    ensures forall id :: GetChannelById(RemoveConnection(h, c), id, c.id).None?
    ensures forall id :: GetClientById(RemoveConnection(h, c), id, c.id).None?
    ensures forall cl :: cl in h.clients && cl.channel.None? ==> cl in RemoveConnection(h, c).clients
    ensures forall ch :: ch in h.channels && ch.connection.id != c.id ==> ch in RemoveConnection(h, c).channels
    ensures |RemoveConnection(h, c).log| == |h.log| + 3
  {
  }

  /** The channel cascade matches on the channel id alone: a client on another
      connection whose channel has the same id is deleted too, while the
      intended cascade keeps it. */
  lemma RemoveChannelCrossesConnections()
    ensures
      var a := Connection(1, map[]);
      var b := Connection(2, map[]);
      var chA := Channel(7, a, ChannelProperties("A"));
      var chB := Channel(7, b, ChannelProperties("B"));
      var props := ClientProperties("n", false, false, true, true, "");
      var clB := Client(3, Some(chB), 0, props);
      var h := Handler([a, b], [chA, chB], [clB], []);
      && RemoveChannel(h, chA).clients == [] && RemoveChannel(h, chA).channels == [chB]
      && IntendedRemoveChannel(h, chA).clients == [clB] && IntendedRemoveChannel(h, chA).channels == [chB]
  {
  }

  /** A client without a channel can be added but never looked up by id. */
  lemma ChannellessClientNotFound(h: Handler, cl: Client, connectionId: int)
    requires cl.channel.None?
    ensures GetClientById(AddClient(h, cl), cl.id, connectionId) == GetClientById(h, cl.id, connectionId)
  {
    if !KeyIn(h.clients, ClientKey, ClientKey(cl)) {
      FindAppendedOther(h.clients, ClientKey, (cl.id, Some(connectionId)), cl);
    }
  }

  /** Removing a freshly added client restores the lists. */
  lemma AddThenRemoveClient(h: Handler, cl: Client)
    requires !KeyIn(h.clients, ClientKey, ClientKey(cl))
    ensures SameLists(RemoveClient(AddClient(h, cl), cl), h)
    ensures RemoveClient(AddClient(h, cl), cl).log == h.log + [ClientsSet(h.clients + [cl]), ClientsSet(h.clients)]
  {
    RemoveAppended(h.clients, ClientKey, cl);
  }

  /** Removing a freshly added channel restores the lists, provided no client
      sits in a channel with that id (those would be cascaded away). */
  lemma AddThenRemoveChannel(h: Handler, ch: Channel)
    requires !KeyIn(h.channels, ChannelKey, ChannelKey(ch))
    requires forall cl :: cl in h.clients ==> ClientChannelId(cl) != Some(ch.id)
    ensures SameLists(RemoveChannel(AddChannel(h, ch), ch), h)
  {
    RemoveAppended(h.channels, ChannelKey, ch);
    FilterKeepsAll(h.clients, (cl: Client) => ClientChannelId(cl) != Some(ch.id));
  }

  /** Two clients with different keys can be added in either order; both end
      up present, and removing one leaves the other. */
  lemma SiblingClients(h: Handler, a: Client, b: Client)
    requires ClientKey(a) != ClientKey(b)
    requires !KeyIn(h.clients, ClientKey, ClientKey(a)) && !KeyIn(h.clients, ClientKey, ClientKey(b))
    ensures a in AddClient(AddClient(h, a), b).clients && b in AddClient(AddClient(h, a), b).clients
    ensures a in AddClient(AddClient(h, b), a).clients && b in AddClient(AddClient(h, b), a).clients
    ensures b in RemoveClient(AddClient(AddClient(h, a), b), a).clients
  {
  }
}
