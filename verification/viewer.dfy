/** The overlay view: which clients of the current channel get a row, which
    get an empty placeholder row, and whether the channel name is shown. */
module Viewer {
  import opened Wrappers
  import opened Entities

  /** The overlay's options; `remoteAppPort` only reaches the connection hook
      and `alignRight`/`showTsAvatar` only change styling. */
  datatype Options = Options(
    showChannelName: bool,
    hideNonTalking: bool,
    clientLimit: int,
    alignRight: bool,
    showTsAvatar: bool)

  /** The defaults of the component's parameters. */
  const DefaultOptions := Options(false, false, 0, false, false)

  datatype Row =
    | Shown(client: Client)  // the nickname row with its talk-status badge
    | Placeholder            // an empty `<div>`
    | Nothing                // `null`: no element at all

  /** `client.channel.connection` read on an undefined channel throws a TypeError. */
  datatype ViewError = ChannelOfUndefined

  datatype View = View(
    header: Option<string>,  // the channel name heading
    rows: seq<Row>,
    connectHint: bool)       // the "couldn't connect" instructions

  /** The client sits in the current channel of the active connection. */
  predicate InCurrentChannel(cl: Client, currentChannel: Option<Channel>, activeConnectionId: int) {
    && currentChannel.Some?
    && cl.channel.Some?
    && cl.channel.value.id == currentChannel.value.id
    && cl.channel.value.connection.id == activeConnectionId
  }

  /** A shown client would be hidden by `hideNonTalking`. */
  predicate NonTalking(cl: Client) {
    cl.properties.inputMuted || cl.properties.outputMuted || cl.talkStatus == 0
  }

  /** Position `i` is inside the client limit; a limit of 0 means no limit. */
  predicate WithinLimit(i: nat, clientLimit: int) {
    clientLimit == 0 || i < clientLimit
  }

  /** The `clients.map` callback: the client when `client.channel?.id` equals
      `currentChannel?.id` and its connection is the active one, otherwise
      `undefined`. When both ids are `undefined` the callback goes on to read
      the connection of the missing channel and throws. */
  function MatchClient(cl: Client, currentChannel: Option<Channel>, activeConnectionId: int): Result<Option<Client>, ViewError> {
    var currentId := match currentChannel case None => None case Some(ch) => Some(ch.id);
    if ClientChannelId(cl) != currentId then Success(None)
    else
      match cl.channel
      case None => Failure(ChannelOfUndefined)
      case Some(ch) => if ch.connection.id == activeConnectionId then Success(Some(cl)) else Success(None)
  }

  /** `currentClients`: one entry per client, in the same order. */
  function CurrentClients(clients: seq<Client>, currentChannel: Option<Channel>, activeConnectionId: int): (r: Result<seq<Option<Client>>, ViewError>)
    ensures r.Failure? <==> currentChannel.None? && exists i :: 0 <= i < |clients| && clients[i].channel.None?
    ensures r.Success? ==> |r.value| == |clients|
    ensures r.Success? ==> forall i :: 0 <= i < |clients| ==>
      r.value[i] == if InCurrentChannel(clients[i], currentChannel, activeConnectionId) then Some(clients[i]) else None
    decreases |clients|
  {
    if |clients| == 0 then Success([])
    else
      match MatchClient(clients[0], currentChannel, activeConnectionId)
      case Failure(e) => Failure(e)
      case Success(first) =>
        match CurrentClients(clients[1..], currentChannel, activeConnectionId)
        case Failure(e) => Failure(e)
        case Success(rest) => Success([first] + rest)
  }

  /** The row callback for entry `i` of `currentClients`. */
  function RowAt(entry: Option<Client>, i: nat, opts: Options): Row {
    if opts.clientLimit != 0 && i >= opts.clientLimit then Nothing
    else
      match entry
      case None => Placeholder
      case Some(cl) => if opts.hideNonTalking && NonTalking(cl) then Nothing else Shown(cl)
  }

  function Rows(entries: seq<Option<Client>>, opts: Options): (r: seq<Row>)
    ensures |r| == |entries|
    ensures forall i :: 0 <= i < |r| ==> r[i] == RowAt(entries[i], i, opts)
  {
    seq(|entries|, i requires 0 <= i < |entries| => RowAt(entries[i], i, opts))
  }

  /** The whole view for the hook's `clients`, `currentChannel` and `activeConnectionId`. */
  function Render(clients: seq<Client>, currentChannel: Option<Channel>, activeConnectionId: int, opts: Options): (r: Result<View, ViewError>)
    ensures r.Failure? <==> currentChannel.None? && exists i :: 0 <= i < |clients| && clients[i].channel.None?
    ensures r.Success? ==> |r.value.rows| == |clients|
    ensures r.Success? ==> forall i :: 0 <= i < |clients| ==>
      (r.value.rows[i] == Shown(clients[i]) <==>
        && WithinLimit(i, opts.clientLimit)
        && InCurrentChannel(clients[i], currentChannel, activeConnectionId)
        && !(opts.hideNonTalking && NonTalking(clients[i])))
    ensures r.Success? ==> forall i :: 0 <= i < |clients| ==>
      (r.value.rows[i] == Placeholder <==>
        WithinLimit(i, opts.clientLimit) && !InCurrentChannel(clients[i], currentChannel, activeConnectionId))
    ensures r.Success? ==> forall i :: 0 <= i < |clients| && r.value.rows[i].Shown? ==> r.value.rows[i].client == clients[i]
    ensures r.Success? ==> (r.value.header.Some? <==> opts.showChannelName && currentChannel.Some?)
    ensures r.Success? && r.value.header.Some? ==> r.value.header.value == currentChannel.value.properties.name
    ensures r.Success? ==> (r.value.connectHint <==> currentChannel.None?)
  {
    match CurrentClients(clients, currentChannel, activeConnectionId)
    case Failure(e) => Failure(e)
    case Success(entries) =>
      var header := if opts.showChannelName && currentChannel.Some? then Some(currentChannel.value.properties.name) else None;
      Success(View(header, Rows(entries, opts), currentChannel.None?))
  }

  /** Number of rows that show a client. */
  function CountShown(rows: seq<Row>): nat
    decreases |rows|
  {
    if |rows| == 0 then 0
    else (if rows[0].Shown? then 1 else 0) + CountShown(rows[1..])
  }

  /** When no row from position `n` on shows a client, at most `n` rows do. */
  lemma {:induction false} CountShownBound(rows: seq<Row>, n: nat)
    requires forall i :: n <= i < |rows| ==> !rows[i].Shown?
    ensures CountShown(rows) <= n
    decreases |rows|
  {
    if |rows| > 0 {
      var tail := rows[1..];
      if n == 0 {
        assert !rows[0].Shown?;
        CountShownBound(tail, 0);
      } else {
        assert forall i :: n - 1 <= i < |tail| ==> !tail[i].Shown? by {
          forall i | n - 1 <= i < |tail|
            ensures !tail[i].Shown?
          {
            assert tail[i] == rows[i + 1];
          }
        }
        CountShownBound(tail, n - 1);
      }
    }
  }

  /** A positive client limit bounds the number of shown clients. It counts
      positions in the full client list, placeholders included. */
  lemma ShownWithinLimit(clients: seq<Client>, currentChannel: Option<Channel>, activeConnectionId: int, opts: Options)
    requires opts.clientLimit > 0
    requires Render(clients, currentChannel, activeConnectionId, opts).Success?
    ensures CountShown(Render(clients, currentChannel, activeConnectionId, opts).value.rows) <= opts.clientLimit
  {
    var rows := Render(clients, currentChannel, activeConnectionId, opts).value.rows;
    CountShownBound(rows, opts.clientLimit);
  }

  /** With the component's default options every client in the current
      channel of the active connection is shown, every other client gets a
      placeholder, and no channel name is shown. */
  lemma DefaultsShowEveryMatch(clients: seq<Client>, currentChannel: Option<Channel>, activeConnectionId: int)
    requires Render(clients, currentChannel, activeConnectionId, DefaultOptions).Success?
    ensures var v := Render(clients, currentChannel, activeConnectionId, DefaultOptions).value;
      && v.header.None?
      && (forall i :: 0 <= i < |clients| ==>
        (v.rows[i] == Shown(clients[i]) <==> InCurrentChannel(clients[i], currentChannel, activeConnectionId)))
      && (forall i :: 0 <= i < |clients| ==>
        (v.rows[i] == Placeholder <==> !InCurrentChannel(clients[i], currentChannel, activeConnectionId)))
  {
  }

  /** A negative limit (`i >= clientLimit` holds everywhere) hides every row. */
  lemma NegativeLimitHidesAll(clients: seq<Client>, currentChannel: Option<Channel>, activeConnectionId: int, opts: Options)
    requires opts.clientLimit < 0
    requires Render(clients, currentChannel, activeConnectionId, opts).Success?
    ensures forall row :: row in Render(clients, currentChannel, activeConnectionId, opts).value.rows ==> row == Nothing
  {
  }
}
